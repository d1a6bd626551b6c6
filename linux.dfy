/** The Linux backend of the shell layer: shellDelete over a list of files,
    the posix_spawn wrapper with the Explore / Open / Execute requests it is
    given and its failure log line, the custom URL handler, the directory
    operations on std::filesystem, the desktop directory read from
    user-dirs.dirs and removeOldFiles.

    posix_spawn / posix_spawnp, QFile::remove / moveToTrash and the
    std::filesystem calls are oracles. `errno` is a parameter: the value the
    thread's errno holds when it is read. */
module LinuxShell {
  import opened Common
  import opened ShellResult
  import opened Facade

  /** ENOENT, the code Explore fails with. */
  const ENOENT: int := 2

  // ---------------------------------------------------------------------------
  // shellDelete
  // ---------------------------------------------------------------------------

  /** The call shellDelete makes for one file. */
  datatype Removal = Trashed(path: string) | Removed(path: string)

  /** Whether the call for one file succeeds: QFile::moveToTrash when
      recycling, QFile::remove otherwise. */
  predicate Deleted(fileName: string, recycle: bool, moveToTrash: string -> bool, remove: string -> bool) {
    if recycle then moveToTrash(fileName) else remove(fileName)
  }

  /** The result shellDelete reports: every file was deleted. */
  predicate AllDeleted(fileNames: seq<string>, recycle: bool, moveToTrash: string -> bool,
                       remove: string -> bool)
  {
    forall i :: 0 <= i < |fileNames| ==> Deleted(fileNames[i], recycle, moveToTrash, remove)
  }

  /** The files whose deletion failed, in list order; one error is logged
      for each. */
  function FailedFiles(fileNames: seq<string>, recycle: bool, moveToTrash: string -> bool,
                       remove: string -> bool): (failed: seq<string>)
    ensures |failed| <= |fileNames|
    ensures failed == [] <==> AllDeleted(fileNames, recycle, moveToTrash, remove)
    decreases |fileNames|
  {
    if fileNames == [] then []
    else
      var init := fileNames[..|fileNames| - 1];
      var last := fileNames[|fileNames| - 1];
      assert forall i :: 0 <= i < |init| ==> init[i] == fileNames[i];
      FailedFiles(init, recycle, moveToTrash, remove)
      + (if Deleted(last, recycle, moveToTrash, remove) then [] else [last])
  }

  /** shellDelete: every file is attempted, in order, even after a failure,
      with moveToTrash exactly when recycling; the result is true exactly when
      every attempt succeeded. */
  method ShellDelete(fileNames: seq<string>, recycle: bool, moveToTrash: string -> bool,
                     remove: string -> bool)
    returns (result: bool, calls: seq<Removal>, failed: seq<string>)
    ensures |calls| == |fileNames|
    ensures forall i :: 0 <= i < |calls| ==>
      calls[i] == (if recycle then Trashed(fileNames[i]) else Removed(fileNames[i]))
    ensures result <==> AllDeleted(fileNames, recycle, moveToTrash, remove)
    ensures failed == FailedFiles(fileNames, recycle, moveToTrash, remove)
  {
    result := true;
    calls := [];
    failed := [];
    for k := 0 to |fileNames|
      invariant |calls| == k
      invariant forall i :: 0 <= i < k ==>
        calls[i] == (if recycle then Trashed(fileNames[i]) else Removed(fileNames[i]))
      invariant failed == FailedFiles(fileNames[..k], recycle, moveToTrash, remove)
      invariant result <==> failed == []
    {
      var fileName := fileNames[k];
      var r: bool;
      if recycle {
        calls := calls + [Trashed(fileName)];
        r := moveToTrash(fileName);
      } else {
        calls := calls + [Removed(fileName)];
        r := remove(fileName);
      }
      assert r == Deleted(fileName, recycle, moveToTrash, remove);
      assert fileNames[..k + 1][..k] == fileNames[..k];
      assert FailedFiles(fileNames[..k + 1], recycle, moveToTrash, remove)
          == failed + (if r then [] else [fileName]);
      if !r {
        result := r;
        failed := failed + [fileName];
      }
    }
    assert fileNames[..|fileNames|] == fileNames;
  }

  /** shellDeleteQuiet on Linux: the fallback is shellDelete of the one file
      without recycling, which repeats the same QFile::remove, so the quiet
      delete succeeds exactly when removing the file does. */
  lemma ShellDeleteQuietIsRemove(fileName: string, moveToTrash: string -> bool, remove: string -> bool)
    ensures ShellDeleteQuiet(fileName, remove,
                             (names, recycle) => AllDeleted(names, recycle, moveToTrash, remove)).ok
            == remove(fileName)
  {
    if !remove(fileName) {
      assert !Deleted([fileName][0], false, moveToTrash, remove);
    }
  }

  // ---------------------------------------------------------------------------
  // removeOldFiles
  // ---------------------------------------------------------------------------

  /** removeOldFiles on Linux: the selected files are removed one by one,
      an error being logged for each file that cannot be removed. Returns the
      files attempted and those that failed. */
  method RemoveOldFiles(files: seq<string>, numToKeep: int, remove: string -> bool)
    returns (attempted: seq<string>, failed: seq<string>)
    requires numToKeep >= 0
    ensures |files| <= numToKeep ==> attempted == []
    ensures |files| > numToKeep ==> attempted == files[..|files| - numToKeep]
    ensures failed == FailedFiles(attempted, false, remove, remove)
  {
    attempted := [];
    failed := [];
    if |files| > numToKeep {
      attempted := SelectOldFiles(files, numToKeep);
      for k := 0 to |attempted|
        invariant failed == FailedFiles(attempted[..k], false, remove, remove)
      {
        var file := attempted[k];
        assert attempted[..k + 1][..k] == attempted[..k];
        if !remove(file) {
          failed := failed + [file];
        }
      }
      assert attempted[..|attempted|] == attempted;
    }
  }

  // ---------------------------------------------------------------------------
  // ShellExecuteWrapper
  // ---------------------------------------------------------------------------

  /** How the program is found: posix_spawn takes a path, posix_spawnp
      searches PATH. */
  datatype SpawnAction = Spawn | Spawnp

  /** The program, the search mode, the argument vector (without its
      terminating NULL) and the environment (None for a null envp) handed to
      posix_spawn(p). */
  datatype SpawnRequest = SpawnRequest(action: SpawnAction, file: string, argv: seq<string>,
                                      environment: Option<seq<string>>)

  /** The envp every spawn passes: a local `environ` initialised to null
      shadows the process environment (src/linux/utility.cpp:240), so the
      child starts with an empty environment, without PATH or DISPLAY. */
  const NullEnvironment: Option<seq<string>> := None

  /** What posix_spawn(p) returns: 0 and the child's pid, or an error number. */
  datatype SpawnOutcome = SpawnOutcome(status: int, pid: int)

  /** The argument vector as written: the parameters alone, without the
      program name in front. */
  function SpawnArgvAsWritten(file: string, params: seq<string>): seq<string> {
    params
  }

  /** The argument vector posix_spawn expects: the program name, then the
      parameters. */
  function SpawnArgv(file: string, params: seq<string>): (argv: seq<string>)
    ensures |argv| == |params| + 1 && argv[0] == file && argv[1..] == params
  {
    [file] + params
  }

  /** As written, the child sees its only parameter as its own name and gets
      no arguments; with the program name in front it gets the parameter as
      its first argument. */
  lemma SpawnArgvDropsArgument(file: string, param: string)
    ensures SpawnArgvAsWritten(file, [param])[1..] == []
    ensures SpawnArgv(file, [param])[1..] == [param]
  {
  }

  /** The parts LogShellFailure joins with spaces: the action's name when it
      is not the enum's zero (so "spawnp" appears and "spawn" does not), the
      program and the parameters. */
  function FailureParts(operation: SpawnAction, file: string, params: seq<string>): seq<string> {
    (if operation == Spawnp then ["spawnp"] else []) + [file] + params
  }

  lemma FailurePartsShape(operation: SpawnAction, file: string, params: seq<string>)
    ensures var parts := FailureParts(operation, file, params);
      && |parts| == |params| + (if operation == Spawnp then 2 else 1)
      && (operation == Spawnp ==> parts[0] == "spawnp" && parts[1] == file)
      && (operation == Spawn ==> parts[0] == file)
      && parts[|parts| - |params|..] == params
  {
  }

  /** The line LogShellFailure writes to the error log. */
  function FailureLine(sysText: int -> Option<string>, operation: SpawnAction, file: string,
                       params: seq<string>, error: int): string
  {
    "failed to invoke '" + Join(FailureParts(operation, file, params), " ") + "': "
    + FormatSystemMessage(Linux, sysText, error)
  }

  /** LogShellFailure: collects the parts in a list, then joins them. */
  method LogShellFailure(sysText: int -> Option<string>, operation: SpawnAction, file: string,
                         params: seq<string>, error: int)
    returns (line: string)
    ensures line == FailureLine(sysText, operation, file, params, error)
  {
    var s: seq<string> := [];
    if operation == Spawnp {
      s := s + ["spawnp"];
    }
    s := s + [file];
    ghost var head := s;
    for i := 0 to |params|
      invariant s == head + params[..i]
    {
      s := s + [params[i]];
      assert params[..i + 1] == params[..i] + [params[i]];
    }
    assert params[..|params|] == params;
    assert s == FailureParts(operation, file, params);
    line := "failed to invoke '" + Join(s, " ") + "': " + FormatSystemMessage(Linux, sysText, error);
  }

  /** ShellExecuteWrapper as written: the parameters alone as argv, and the
      failure reported with errno, which posix_spawn(p) does not set. */
  function ShellExecuteWrapperAsWritten(sysText: int -> Option<string>, operation: SpawnAction,
                                        file: string, params: seq<string>,
                                        posixSpawn: SpawnRequest -> SpawnOutcome, errno: int)
    : (out: (Result, seq<string>))
    ensures posixSpawn(SpawnRequest(operation, file, params, NullEnvironment)).status != 0 ==>
      !out.0.success && out.0.error == errno
  {
    var outcome := posixSpawn(SpawnRequest(operation, file, SpawnArgvAsWritten(file, params), NullEnvironment));
    if outcome.status != 0 then
      (MakeFailure(Linux, sysText, errno, FormatSystemMessage(Linux, sysText, errno)),
       [FailureLine(sysText, operation, file, params, errno)])
    else (MakeSuccess(Linux, sysText, outcome.pid), [])
  }

  /** A spawn that fails with ENOENT while errno still holds 0 is reported
      as written as a failure with the success code 0; reporting the status
      posix_spawn returned keeps ENOENT. */
  lemma SpawnFailureLosesCode(sysText: int -> Option<string>, file: string, params: seq<string>,
                              posixSpawn: SpawnRequest -> SpawnOutcome)
    requires posixSpawn(SpawnRequest(Spawnp, file, params, NullEnvironment)).status == ENOENT
    requires posixSpawn(SpawnRequest(Spawnp, file, SpawnArgv(file, params), NullEnvironment)).status == ENOENT
    ensures ShellExecuteWrapperAsWritten(sysText, Spawnp, file, params, posixSpawn, 0).0.error == ERROR_SUCCESS
    ensures ShellExecuteWrapper(sysText, Spawnp, file, params, posixSpawn).0.error == ENOENT
  {
    var asWritten := ShellExecuteWrapperAsWritten(sysText, Spawnp, file, params, posixSpawn, 0);
    var corrected := ShellExecuteWrapper(sysText, Spawnp, file, params, posixSpawn);
    assert SpawnArgvAsWritten(file, params) == params;
  }

  /** ShellExecuteWrapper: spawns the program with its name and the
      parameters as argv; a non-zero status is a logged failure carrying that
      status, zero is a success carrying the child's pid. The child is never
      waited for. */
  function ShellExecuteWrapper(sysText: int -> Option<string>, operation: SpawnAction,
                               file: string, params: seq<string>,
                               posixSpawn: SpawnRequest -> SpawnOutcome): (out: (Result, seq<string>))
    ensures var outcome := posixSpawn(SpawnRequest(operation, file, SpawnArgv(file, params), NullEnvironment));
      && (out.0.success <==> outcome.status == 0)
      && (outcome.status == 0 ==> out.0.error == ERROR_SUCCESS && out.0.process == outcome.pid && out.1 == [])
      && (outcome.status != 0 ==>
            out.0.error == outcome.status && out.0.process == InvalidHandle(Linux)
            && ReadDecimalCode(out.0.message) == outcome.status
            && out.1 == [FailureLine(sysText, operation, file, params, outcome.status)])
  {
    var outcome := posixSpawn(SpawnRequest(operation, file, SpawnArgv(file, params), NullEnvironment));
    if outcome.status != 0 then
      var message := FormatSystemMessage(Linux, sysText, outcome.status);
      (MakeFailure(Linux, sysText, outcome.status, message),
       [FailureLine(sysText, operation, file, params, outcome.status)])
    else (MakeSuccess(Linux, sysText, outcome.pid), [])
  }

  // ---------------------------------------------------------------------------
  // Explore, Open, Execute
  // ---------------------------------------------------------------------------

  /** The spawn Explore makes, if any: xdg-open, searched in PATH, on the
      file, the directory or the existing parent; the file is not selected,
      its path is opened like a directory's. */
  function ExploreRequest(info: FileInfo): Option<SpawnRequest> {
    match ChooseExplore(info)
    case ShowFileInDirectory(p) => Some(SpawnRequest(Spawnp, "xdg-open", SpawnArgv("xdg-open", [p]), NullEnvironment))
    case ShowDirectory(p) => Some(SpawnRequest(Spawnp, "xdg-open", SpawnArgv("xdg-open", [p]), NullEnvironment))
    case NotFound => None
  }

  /** Explore on Linux. */
  function ExploreLinux(sysText: int -> Option<string>, info: FileInfo,
                        posixSpawn: SpawnRequest -> SpawnOutcome): Result
  {
    match ChooseExplore(info)
    case ShowFileInDirectory(p) => ShellExecuteWrapper(sysText, Spawnp, "xdg-open", [p], posixSpawn).0
    case ShowDirectory(p) => ShellExecuteWrapper(sysText, Spawnp, "xdg-open", [p], posixSpawn).0
    case NotFound => MakeFailure(Linux, sysText, ENOENT, [])
  }

  /** A file and a directory are both handed to xdg-open by path; a missing
      path falls back to its parent when that exists; otherwise nothing is
      spawned and the result is ENOENT. */
  lemma ExploreLinuxRequests(sysText: int -> Option<string>, info: FileInfo,
                             posixSpawn: SpawnRequest -> SpawnOutcome)
    ensures (info.isFile || info.isDir) ==>
      ExploreRequest(info) == Some(SpawnRequest(Spawnp, "xdg-open", ["xdg-open", info.path], NullEnvironment))
    ensures !info.isFile && !info.isDir && info.parentExists ==>
      ExploreRequest(info) == Some(SpawnRequest(Spawnp, "xdg-open", ["xdg-open", info.parentPath], NullEnvironment))
    ensures ExploreRequest(info).Some? ==>
      var r := ExploreLinux(sysText, info, posixSpawn);
      r.success <==> posixSpawn(ExploreRequest(info).value).status == 0
    ensures ExploreRequest(info).None? ==>
      var r := ExploreLinux(sysText, info, posixSpawn);
      !r.success && r.error == ENOENT && r.process == InvalidHandle(Linux)
  {
    match ChooseExplore(info)
    case ShowFileInDirectory(p) =>
      assert SpawnArgv("xdg-open", [p]) == ["xdg-open", p];
    case ShowDirectory(p) =>
      assert SpawnArgv("xdg-open", [p]) == ["xdg-open", p];
    case NotFound =>
  }

  /** OpenCustomURL: spawns the handler string itself as the program's path
      (posix_spawn, no PATH search, no placeholder substitution) with the URL
      as its argument. A result without a process is returned as it is; a
      started child is forgotten and a plain success returned, so the result
      never carries a pid. */
  function OpenCustomURL(sysText: int -> Option<string>, format: string, url: string,
                         posixSpawn: SpawnRequest -> SpawnOutcome): (r: Result)
    ensures var outcome := posixSpawn(SpawnRequest(Spawn, format, [format, url], NullEnvironment));
      && r.process == 0
      && (r.success <==> outcome.status == 0)
      && (outcome.status != 0 ==> r.error == outcome.status)
  {
    assert SpawnArgv(format, [url]) == [format, url];
    var r := ShellExecuteWrapper(sysText, Spawn, format, [url], posixSpawn).0;
    if r.process == 0 then r else MakeSuccess(Linux, sysText, 0)
  }

  /** Open(url) on Linux: xdg-open on the URL when no custom handler is
      stored, the custom handler otherwise. */
  function OpenUrl(setting: UrlHandlerSetting, sysText: int -> Option<string>, url: string,
                   posixSpawn: SpawnRequest -> SpawnOutcome): (r: Result)
    reads setting
    ensures RouteUrl(setting.handler) == DefaultOpen ==>
      r == ShellExecuteWrapper(sysText, Spawnp, "xdg-open", [url], posixSpawn).0
    ensures RouteUrl(setting.handler) == CustomHandler(setting.handler) ==>
      r == OpenCustomURL(sysText, setting.handler, url, posixSpawn)
  {
    if setting.handler == [] then ShellExecuteWrapper(sysText, Spawnp, "xdg-open", [url], posixSpawn).0
    else OpenCustomURL(sysText, setting.handler, url, posixSpawn)
  }

  /** Open(path) on Linux: xdg-open on the path, searched in PATH. */
  function OpenPath(sysText: int -> Option<string>, path: string,
                    posixSpawn: SpawnRequest -> SpawnOutcome): (r: Result)
    ensures r.success <==> posixSpawn(SpawnRequest(Spawnp, "xdg-open", ["xdg-open", path], NullEnvironment)).status == 0
  {
    assert SpawnArgv("xdg-open", [path]) == ["xdg-open", path];
    ShellExecuteWrapper(sysText, Spawnp, "xdg-open", [path], posixSpawn).0
  }

  /** Execute: the program by path, with the whole parameter string as one
      argument (it is not split at spaces). */
  function Execute(sysText: int -> Option<string>, program: string, params: string,
                   posixSpawn: SpawnRequest -> SpawnOutcome): (r: Result)
    ensures var outcome := posixSpawn(SpawnRequest(Spawn, program, [program, params], NullEnvironment));
      && (r.success <==> outcome.status == 0)
      && (r.success ==> r.process == outcome.pid)
  {
    assert SpawnArgv(program, [params]) == [program, params];
    ShellExecuteWrapper(sysText, Spawn, program, [params], posixSpawn).0
  }

  // ---------------------------------------------------------------------------
  // CreateDirectories and DeleteDirectoryRecursive
  // ---------------------------------------------------------------------------

  /** CreateDirectories: a single, non-recursive std::filesystem
      create_directory on the path itself; its error code decides the
      result. Parents are never created. */
  function CreateDirectories(sysText: int -> Option<string>, dir: string,
                             createDirectory: string -> ErrorCode): (r: Result)
    ensures r.success <==> createDirectory(dir).value == 0
    ensures !r.success ==> r.error == createDirectory(dir).value
  {
    var e := createDirectory(dir);
    if e.value != 0 then MakeFailureFromCode(sysText, e) else MakeSuccess(Linux, sysText, 0)
  }

  /** How a call ends: with a returned Result or with a thrown
      std::filesystem::filesystem_error carrying an error code. */
  datatype Outcome = Returned(result: Result) | Threw(code: ErrorCode)

  /** DeleteDirectoryRecursive as written: remove_all is called without the
      error_code argument, so a failure throws, and the error_code that is
      checked afterwards is never set. */
  function DeleteDirectoryRecursiveAsWritten(sysText: int -> Option<string>, dir: string,
                                             removeAll: string -> ErrorCode): Outcome
  {
    var e := removeAll(dir);
    if e.value != 0 then Threw(e) else Returned(MakeSuccess(Linux, sysText, 0))
  }

  /** As written, a returned Result is always a success: a failure never
      reaches the caller as a Result. */
  lemma DeleteDirectoryNeverFails(sysText: int -> Option<string>, dir: string,
                                  removeAll: string -> ErrorCode)
    requires removeAll(dir).value != 0
    ensures DeleteDirectoryRecursiveAsWritten(sysText, dir, removeAll).Threw?
    ensures DeleteDirectoryRecursive(sysText, dir, removeAll).Returned?
    ensures !DeleteDirectoryRecursive(sysText, dir, removeAll).result.success
  {
  }

  /** DeleteDirectoryRecursive with the error code passed to remove_all: a
      failure is returned as a failed Result with that code. */
  function DeleteDirectoryRecursive(sysText: int -> Option<string>, dir: string,
                                    removeAll: string -> ErrorCode): (o: Outcome)
    ensures o.Returned?
    ensures o.result.success <==> removeAll(dir).value == 0
    ensures !o.result.success ==> o.result.error == removeAll(dir).value
  {
    var e := removeAll(dir);
    if e.value != 0 then Returned(MakeFailureFromCode(sysText, e)) else Returned(MakeSuccess(Linux, sysText, 0))
  }

  // ---------------------------------------------------------------------------
  // getDesktopDirectory
  // ---------------------------------------------------------------------------

  const XDG_DESKTOP_KEY: string := "XDG_DESKTOP_DIR="

  /** The index of the first line that starts with key, |lines| if none does. */
  function FirstLineWith(lines: seq<string>, key: string): (i: nat)
    ensures i <= |lines|
    ensures i < |lines| ==> StartsWith(lines[i], key)
    ensures forall j :: 0 <= j < i ==> !StartsWith(lines[j], key)
    decreases |lines|
  {
    if lines == [] then 0
    else if StartsWith(lines[0], key) then 0
    else 1 + FirstLineWith(lines[1..], key)
  }

  /** std::filesystem::path's operator/ for a relative name: a separator is
      inserted unless the base is empty or already ends in one. */
  function PathAppend(base: string, name: string): string {
    if base == [] || base[|base| - 1] == '/' then base + name else base + "/" + name
  }

  /** getDesktopDirectory as written: the rest of the first
      XDG_DESKTOP_DIR= line of user-dirs.dirs exactly as QFile::readLine gives
      it (quotes, $HOME and the line break included), or $HOME/Desktop when
      the file cannot be opened or has no such line. `lines` are the lines
      readLine returns, each with its line break. */
  method GetDesktopDirectory(isOpen: bool, lines: seq<string>, home: string) returns (dir: string)
    ensures isOpen && FirstLineWith(lines, XDG_DESKTOP_KEY) < |lines| ==>
      dir == lines[FirstLineWith(lines, XDG_DESKTOP_KEY)][|XDG_DESKTOP_KEY|..]
    ensures !(isOpen && FirstLineWith(lines, XDG_DESKTOP_KEY) < |lines|) ==>
      dir == PathAppend(home, "Desktop")
  {
    if isOpen {
      var i := 0;
      while i < |lines|
        invariant 0 <= i <= |lines|
        invariant forall j :: 0 <= j < i ==> !StartsWith(lines[j], XDG_DESKTOP_KEY)
      {
        var line := lines[i];
        if StartsWith(line, XDG_DESKTOP_KEY) {
          FirstLineIs(lines, XDG_DESKTOP_KEY, i);
          return line[|XDG_DESKTOP_KEY|..];
        }
        i := i + 1;
      }
      FirstLineIs(lines, XDG_DESKTOP_KEY, |lines|);
    }
    dir := PathAppend(home, "Desktop");
  }

  lemma FirstLineIs(lines: seq<string>, key: string, i: nat)
    requires i <= |lines|
    requires i < |lines| ==> StartsWith(lines[i], key)
    requires forall j :: 0 <= j < i ==> !StartsWith(lines[j], key)
    ensures FirstLineWith(lines, key) == i
  {
  }

  /** The value of a user-dirs.dirs entry as a path: the line break removed,
      the quotes removed and a leading $HOME replaced by the home directory. */
  function DesktopValue(raw: string, home: string): string {
    var v := if raw != [] && raw[|raw| - 1] == '\n' then raw[..|raw| - 1] else raw;
    var u := if |v| >= 2 && v[0] == '"' && v[|v| - 1] == '"' then v[1..|v| - 1] else v;
    if StartsWith(u, "$HOME") then home + u[5..] else u
  }

  /** getDesktopDirectory with the entry's value read as a path. */
  function DesktopDirectory(isOpen: bool, lines: seq<string>, home: string): string {
    var i := FirstLineWith(lines, XDG_DESKTOP_KEY);
    if isOpen && i < |lines| then DesktopValue(lines[i][|XDG_DESKTOP_KEY|..], home)
    else PathAppend(home, "Desktop")
  }

  /** Read as a path, the entry xdg-user-dirs writes,
      XDG_DESKTOP_DIR="$HOME/<name>", is <home>/<name>; with no such entry
      the directory is <home>/Desktop. */
  lemma DesktopDirectoryReadsPath(lines: seq<string>, i: nat, name: string, home: string)
    requires i < |lines| && lines[i] == XDG_DESKTOP_KEY + "\"$HOME/" + name + "\"\n"
    requires forall j :: 0 <= j < i ==> !StartsWith(lines[j], XDG_DESKTOP_KEY)
    ensures DesktopDirectory(true, lines, home) == home + "/" + name
    ensures DesktopDirectory(false, lines, home) == PathAppend(home, "Desktop")
  {
    var value := "\"$HOME/" + name + "\"\n";
    assert lines[i][..|XDG_DESKTOP_KEY|] == XDG_DESKTOP_KEY;
    FirstLineIs(lines, XDG_DESKTOP_KEY, i);
    assert lines[i][|XDG_DESKTOP_KEY|..] == value;
    var quoted := value[..|value| - 1];
    assert quoted == "\"$HOME/" + name + "\"";
    var unquoted := quoted[1..|quoted| - 1];
    assert unquoted == "$HOME/" + name;
    assert unquoted[..5] == "$HOME";
    assert unquoted[5..] == "/" + name;
  }

  /** The entry xdg-user-dirs writes, XDG_DESKTOP_DIR="$HOME/<name>", comes
      back as written with its quotes, the unexpanded $HOME and the line
      break; read as a path it is <home>/<name>, which for <name> = Desktop
      is also the fallback. */
  method QuotedDesktopEntry(name: string, home: string) returns (asWritten: string, corrected: string)
    ensures asWritten == "\"$HOME/" + name + "\"\n"
    ensures corrected == home + "/" + name
    ensures name == "Desktop" && home != [] && home[|home| - 1] != '/' ==>
      corrected == PathAppend(home, "Desktop")
  {
    var value := "\"$HOME/" + name + "\"\n";
    var line := XDG_DESKTOP_KEY + value;
    assert line[..|XDG_DESKTOP_KEY|] == XDG_DESKTOP_KEY;
    assert line[|XDG_DESKTOP_KEY|..] == value;
    assert FirstLineWith([line], XDG_DESKTOP_KEY) == 0;
    asWritten := GetDesktopDirectory(true, [line], home);
    var quoted := value[..|value| - 1];
    assert quoted == "\"$HOME/" + name + "\"";
    var unquoted := quoted[1..|quoted| - 1];
    assert unquoted == "$HOME/" + name;
    assert unquoted[..5] == "$HOME";
    assert unquoted[5..] == "/" + name;
    corrected := DesktopDirectory(true, [line], home);
  }
}
