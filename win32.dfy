/** The Win32 backend of the shell layer: the batch file operation built
    around SHFileOperationW (error translation, the double-NUL terminated
    path buffers, the request validation and the fFlags word), the
    ShellExecuteExW wrapper with the Explore / Open / Execute requests it is
    given, the custom URL handler, formatError, the process handle a Result
    owns, and the whitespace removal applied to system messages.

    SHFileOperationW, ShellExecuteExW, FormatMessageW (with a format string)
    and CreateProcessW are oracles: functions from the request they receive
    to the status they report. QFileInfo::absoluteFilePath is the oracle
    `absolute`. */
module Win32Shell {
  import opened Common
  import opened ShellResult
  import opened Facade

  /** The C++ `int` that SHFileOperationW returns. */
  type Int32 = x: int | -0x8000_0000 <= x < 0x8000_0000

  // ---------------------------------------------------------------------------
  // TranslateError
  // ---------------------------------------------------------------------------

  // Standard system error codes (winerror.h).
  const ERROR_ACCESS_DENIED: DWord := 5
  const ERROR_PATH_NOT_FOUND: DWord := 3
  const ERROR_NOT_SAME_DEVICE: DWord := 17
  const ERROR_WRITE_PROTECT: DWord := 19
  const ERROR_GEN_FAILURE: DWord := 31
  const ERROR_INVALID_PARAMETER: DWord := 87
  const ERROR_BUFFER_OVERFLOW: DWord := 111
  const ERROR_DISK_FULL: DWord := 112
  const ERROR_BAD_PATHNAME: DWord := 161
  const ERROR_ALREADY_EXISTS: DWord := 183
  const ERROR_CANCELLED: DWord := 1223

  /** TranslateError: the private SHFileOperation return codes mapped to the
      standard codes closest in meaning; every other value is reinterpreted
      as a DWORD unchanged. */
  function TranslateError(error: Int32): DWord {
    match error
    case 0x71 => ERROR_INVALID_PARAMETER
    case 0x72 => ERROR_INVALID_PARAMETER
    case 0x73 => ERROR_NOT_SAME_DEVICE
    case 0x74 => ERROR_INVALID_PARAMETER
    case 0x75 => ERROR_CANCELLED
    case 0x76 => ERROR_BAD_PATHNAME
    case 0x78 => ERROR_ACCESS_DENIED
    case 0x79 => ERROR_BUFFER_OVERFLOW
    case 0x7A => ERROR_INVALID_PARAMETER
    case 0x7C => ERROR_BAD_PATHNAME
    case 0x7D => ERROR_INVALID_PARAMETER
    case 0x7E => ERROR_ALREADY_EXISTS
    case 0x80 => ERROR_ALREADY_EXISTS
    case 0x81 => ERROR_BUFFER_OVERFLOW
    case 0x82 => ERROR_WRITE_PROTECT
    case 0x83 => ERROR_WRITE_PROTECT
    case 0x84 => ERROR_WRITE_PROTECT
    case 0x85 => ERROR_DISK_FULL
    case 0x86 => ERROR_WRITE_PROTECT
    case 0x87 => ERROR_WRITE_PROTECT
    case 0x88 => ERROR_WRITE_PROTECT
    case 0xB7 => ERROR_BUFFER_OVERFLOW
    case 0x402 => ERROR_PATH_NOT_FOUND
    case 0x10000 => ERROR_GEN_FAILURE
    case _ => error % 0x1_0000_0000
  }

  /** The same table read by target code: the private codes grouped by the
      standard code each of them stands for. */
  function TranslationByGroup(error: int): Option<DWord> {
    if error in {0x71, 0x72, 0x74, 0x7A, 0x7D} then Some(ERROR_INVALID_PARAMETER)
    else if error == 0x73 then Some(ERROR_NOT_SAME_DEVICE)
    else if error == 0x75 then Some(ERROR_CANCELLED)
    else if error in {0x76, 0x7C} then Some(ERROR_BAD_PATHNAME)
    else if error == 0x78 then Some(ERROR_ACCESS_DENIED)
    else if error in {0x79, 0x81, 0xB7} then Some(ERROR_BUFFER_OVERFLOW)
    else if error in {0x7E, 0x80} then Some(ERROR_ALREADY_EXISTS)
    else if 0x82 <= error <= 0x88 && error != 0x85 then Some(ERROR_WRITE_PROTECT)
    else if error == 0x85 then Some(ERROR_DISK_FULL)
    else if error == 0x402 then Some(ERROR_PATH_NOT_FOUND)
    else if error == 0x10000 then Some(ERROR_GEN_FAILURE)
    else None
  }

  /** The private codes of SHFileOperation that TranslateError rewrites. */
  const PrivateCodes: set<int> :=
    {0x71, 0x72, 0x73, 0x74, 0x75, 0x76, 0x78, 0x79, 0x7A, 0x7C, 0x7D, 0x7E, 0x80,
     0x81, 0x82, 0x83, 0x84, 0x85, 0x86, 0x87, 0x88, 0xB7, 0x402, 0x10000}

  /** The standard codes they are rewritten to. */
  const TranslatedCodes: set<int> :=
    {ERROR_INVALID_PARAMETER, ERROR_NOT_SAME_DEVICE, ERROR_CANCELLED, ERROR_BAD_PATHNAME,
     ERROR_ACCESS_DENIED, ERROR_BUFFER_OVERFLOW, ERROR_ALREADY_EXISTS, ERROR_WRITE_PROTECT,
     ERROR_DISK_FULL, ERROR_PATH_NOT_FOUND, ERROR_GEN_FAILURE}

  /** The table agrees with the grouped reading: a private code becomes its
      group's standard code, and every other value passes through as the
      DWORD with the same bits. */
  lemma TranslateErrorByGroup(error: Int32)
    ensures TranslationByGroup(error).Some? <==> error in PrivateCodes
    ensures TranslationByGroup(error).Some? ==>
      TranslateError(error) == TranslationByGroup(error).value && TranslateError(error) in TranslatedCodes
    ensures TranslationByGroup(error).None? ==>
      TranslateError(error) == error % 0x1_0000_0000
      && (error >= 0 ==> TranslateError(error) == error)
      && (error < 0 ==> TranslateError(error) == error + 0x1_0000_0000)
  {
  }

  /** Translation is applied once and must not be applied twice: the code
      0x7E becomes ERROR_ALREADY_EXISTS (183 = 0xB7), which is itself a
      private code. */
  lemma TranslateErrorNotIdempotent()
    ensures TranslateError(0x7E) == ERROR_ALREADY_EXISTS
    ensures TranslateError(TranslateError(0x7E)) == ERROR_BUFFER_OVERFLOW
  {
  }

  // ---------------------------------------------------------------------------
  // Double-NUL terminated path lists
  // ---------------------------------------------------------------------------

  /** The paths one after the other, each followed by a NUL. */
  function Entries(paths: seq<string>): string
    decreases |paths|
  {
    if paths == [] then [] else Entries(paths[..|paths| - 1]) + paths[|paths| - 1] + [NUL]
  }

  /** The pFrom / pTo layout: the entries and one more NUL that ends the list. */
  function MultiSz(paths: seq<string>): string {
    Entries(paths) + [NUL]
  }

  /** Reads a double-NUL terminated list: strings up to each NUL, until an
      empty one (the terminating NUL) or the end of the buffer. */
  function ParseMultiSz(buffer: string): seq<string>
    decreases |buffer|
  {
    var i := FirstIndex(buffer, NUL);
    if i == 0 || i == |buffer| then [] else [buffer[..i]] + ParseMultiSz(buffer[i + 1..])
  }

  /** Entries read from the front: the first path, its NUL, then the rest. */
  lemma {:induction false} EntriesCons(p: string, paths: seq<string>)
    ensures Entries([p] + paths) == p + [NUL] + Entries(paths)
    decreases |paths|
  {
    if paths == [] {
      assert ([p] + paths)[..0] == [];
    } else {
      var init := paths[..|paths| - 1];
      assert ([p] + paths)[..|paths|] == [p] + init;
      EntriesCons(p, init);
    }
  }

  /** A list of non-empty paths without NUL characters reads back from its
      buffer. */
  lemma {:induction false} ParseMultiSzRoundTrip(paths: seq<string>)
    requires forall i :: 0 <= i < |paths| ==> paths[i] != [] && NUL !in paths[i]
    ensures ParseMultiSz(MultiSz(paths)) == paths
    decreases |paths|
  {
    if paths == [] {
      assert MultiSz(paths) == [NUL];
    } else {
      var p, rest := paths[0], paths[1..];
      assert paths == [p] + rest;
      EntriesCons(p, rest);
      var buffer := MultiSz(paths);
      assert buffer == p + [NUL] + MultiSz(rest);
      FirstIndexAfter(p, NUL, MultiSz(rest));
      assert buffer[..|p|] == p;
      assert buffer[|p| + 1..] == MultiSz(rest);
      ParseMultiSzRoundTrip(rest);
    }
  }

  /** An empty path would end the list early: only the paths before it are
      read back. */
  lemma EmptyPathEndsList(p: string, rest: seq<string>)
    requires p != [] && NUL !in p
    ensures ParseMultiSz(MultiSz([p, []] + rest)) == [p]
  {
    EntriesCons(p, [[]] + rest);
    EntriesCons([], rest);
    var buffer := MultiSz([p, []] + rest);
    assert [p, []] + rest == [p] + ([[]] + rest);
    assert buffer == p + [NUL] + ([NUL] + Entries(rest) + [NUL]);
    FirstIndexAfter(p, NUL, [NUL] + Entries(rest) + [NUL]);
    assert buffer[..|p|] == p;
    assert buffer[|p| + 1..] == [NUL] + Entries(rest) + [NUL];
  }

  /** The absolute paths with native separators that shellOp writes into
      its buffers. */
  function NativePaths(names: seq<string>, absolute: string -> string): (r: seq<string>)
    ensures |r| == |names|
  {
    seq(|names|, i requires 0 <= i < |names| => NativeSeparators(absolute(names[i])))
  }

  // ---------------------------------------------------------------------------
  // shellOp
  // ---------------------------------------------------------------------------

  // SHFileOperationW operations (shellapi.h); FO_RECYCLE is the library's own.
  const FO_MOVE: nat := 1
  const FO_COPY: nat := 2
  const FO_DELETE: nat := 3
  const FO_RENAME: nat := 4
  const FO_RECYCLE: nat := 0x1003

  // FILEOP_FLAGS bits (shellapi.h).
  const FOF_MULTIDESTFILES: bv16 := 0x1
  const FOF_SILENT: bv16 := 0x4
  const FOF_NOCONFIRMATION: bv16 := 0x10
  const FOF_ALLOWUNDO: bv16 := 0x40
  const FOF_NOCONFIRMMKDIR: bv16 := 0x200
  const FOF_NOERRORUI: bv16 := 0x400
  const FOF_NOCOPYSECURITYATTRIBS: bv16 := 0x800
  const FOF_NO_UI: bv16 := 0x614

  /** The SHFILEOPSTRUCTW handed to SHFileOperationW. */
  datatype FileOp = FileOp(wFunc: nat, pFrom: string, pTo: string, fFlags: bv16)

  /** FO_RECYCLE is carried out as FO_DELETE with FOF_ALLOWUNDO. */
  function EffectiveOperation(operation: nat): nat {
    if operation == FO_RECYCLE then FO_DELETE else operation
  }

  /** The destination count shellOp accepts: one per source, a single one for
      all sources, or none for a delete. */
  predicate Accepted(sourceCount: nat, destinationCount: nat, operation: nat) {
    destinationCount == sourceCount || destinationCount == 1
    || (operation == FO_DELETE && destinationCount == 0)
  }

  /** The pTo buffer: the destinations, or just the two NULs for a delete
      without destinations. */
  function DestinationBuffer(sources: seq<string>, destinations: seq<string>): string {
    if |destinations| == |sources| || |destinations| == 1 then MultiSz(destinations) else [NUL, NUL]
  }

  /** The fFlags word for the effective operation. */
  function FileOpFlags(operation: nat, recycle: bool, yesToAll: bool, silent: bool,
                       countsEqual: bool): bv16
  {
    var base :=
      if operation == FO_DELETE || yesToAll then
        FOF_NOCONFIRMATION | (if recycle then FOF_ALLOWUNDO else 0)
      else
        FOF_NOCOPYSECURITYATTRIBS | FOF_SILENT | FOF_NOCONFIRMMKDIR
        | (if countsEqual then FOF_MULTIDESTFILES else 0);
    if silent then base | FOF_NO_UI else base
  }

  /** What each bit of fFlags means: deletes and yes-to-all requests skip the
      confirmation and are undoable exactly when recycling; other requests keep
      the target's security, hide the progress bar, create directories
      silently and pair sources with destinations exactly when the counts are
      equal; silent requests show no UI at all. */
  lemma FileOpFlagsBits(operation: nat, recycle: bool, yesToAll: bool, silent: bool, countsEqual: bool)
    requires recycle ==> operation == FO_DELETE
    ensures var f := FileOpFlags(operation, recycle, yesToAll, silent, countsEqual);
      && ((operation == FO_DELETE || yesToAll) ==>
            f & FOF_NOCONFIRMATION != 0
            && (f & FOF_ALLOWUNDO != 0 <==> recycle)
            && f & FOF_MULTIDESTFILES == 0
            && f & FOF_NOCOPYSECURITYATTRIBS == 0)
      && (!(operation == FO_DELETE || yesToAll) ==>
            f & FOF_NOCOPYSECURITYATTRIBS != 0
            && f & FOF_SILENT != 0
            && f & FOF_NOCONFIRMMKDIR != 0
            && (f & FOF_MULTIDESTFILES != 0 <==> countsEqual)
            && f & FOF_ALLOWUNDO == 0
            && (f & FOF_NOCONFIRMATION != 0 <==> silent))
      && (silent ==> f & FOF_NO_UI == FOF_NO_UI)
      && (!silent ==> f & FOF_NOERRORUI == 0)
  {
  }

  /** shellOp: builds the buffers and flags, rejects a destination count it
      cannot pair with the sources (setting ERROR_INVALID_PARAMETER without
      calling SHFileOperationW), and otherwise reports whether
      SHFileOperationW returned 0, translating its code into the last error
      when it did not. `call` is the request SHFileOperationW received, if
      any; `lastError` is the value SetLastError was given, if any. */
  method ShellOp(sourceNames: seq<string>, destinationNames: seq<string>, operation: nat,
                 yesToAll: bool, silent: bool, absolute: string -> string,
                 shFileOperation: FileOp -> Int32)
    returns (ok: bool, call: Option<FileOp>, lastError: Option<DWord>)
    ensures call.Some? <==> Accepted(|sourceNames|, |destinationNames|, EffectiveOperation(operation))
    ensures call.Some? ==>
      && call.value.wFunc == EffectiveOperation(operation)
      && call.value.pFrom == MultiSz(NativePaths(sourceNames, absolute))
      && call.value.pTo == DestinationBuffer(sourceNames, NativePaths(destinationNames, absolute))
      && call.value.fFlags == FileOpFlags(EffectiveOperation(operation), operation == FO_RECYCLE,
                                         yesToAll, silent, |destinationNames| == |sourceNames|)
    ensures ok <==> call.Some? && shFileOperation(call.value) == 0
    ensures call.None? ==> lastError == Some(ERROR_INVALID_PARAMETER)
    ensures call.Some? && !ok ==> lastError == Some(TranslateError(shFileOperation(call.value)))
    ensures ok ==> lastError == None
  {
    var fromBuffer := PushPaths([], sourceNames, absolute);
    var op := operation;
    var recycle := op == FO_RECYCLE;
    if recycle {
      op := FO_DELETE;
    }

    var toBuffer: string := [];
    if |destinationNames| == |sourceNames| || |destinationNames| == 1 {
      toBuffer := PushPaths(toBuffer, destinationNames, absolute);
      assert toBuffer == Entries(NativePaths(destinationNames, absolute));
    } else if op == FO_DELETE && |destinationNames| == 0 {
      toBuffer := toBuffer + [NUL];
      assert toBuffer == [NUL];
    } else {
      return false, None, Some(ERROR_INVALID_PARAMETER);
    }

    fromBuffer := fromBuffer + [NUL];
    toBuffer := toBuffer + [NUL];
    assert toBuffer == DestinationBuffer(sourceNames, NativePaths(destinationNames, absolute));

    var flags: bv16;
    if op == FO_DELETE || yesToAll {
      flags := FOF_NOCONFIRMATION;
      if recycle {
        flags := flags | FOF_ALLOWUNDO;
      }
    } else {
      flags := FOF_NOCOPYSECURITYATTRIBS | FOF_SILENT | FOF_NOCONFIRMMKDIR;
      if |destinationNames| == |sourceNames| {
        flags := flags | FOF_MULTIDESTFILES;
      }
    }
    if silent {
      flags := flags | FOF_NO_UI;
    }

    var request := FileOp(op, fromBuffer, toBuffer, flags);
    call := Some(request);
    var res := shFileOperation(request);
    if res == 0 {
      ok, lastError := true, None;
    } else {
      ok, lastError := false, Some(TranslateError(res));
    }
  }

  /** The loop that appends each name's absolute native path and a NUL to a
      buffer. */
  method PushPaths(buffer: string, names: seq<string>, absolute: string -> string)
    returns (result: string)
    ensures result == buffer + Entries(NativePaths(names, absolute))
  {
    ghost var paths := NativePaths(names, absolute);
    result := buffer;
    for i := 0 to |names|
      invariant result == buffer + Entries(paths[..i])
    {
      var path := NativeSeparators(absolute(names[i]));
      result := result + path;
      result := result + [NUL];
      assert paths[..i + 1][..i] == paths[..i];
    }
    assert paths[..|names|] == paths;
  }

  // ---------------------------------------------------------------------------
  // The wrappers
  // ---------------------------------------------------------------------------

  /** shellCopy of two lists: a copy without yes-to-all, accepted when the
      destinations pair with the sources or are a single target directory. */
  method ShellCopy(sourceNames: seq<string>, destinationNames: seq<string>,
                   absolute: string -> string, shFileOperation: FileOp -> Int32)
    returns (ok: bool, call: Option<FileOp>, lastError: Option<DWord>)
    ensures call.Some? <==> |destinationNames| == |sourceNames| || |destinationNames| == 1
    ensures call.Some? ==>
      && call.value.wFunc == FO_COPY
      && call.value.fFlags & FOF_NOCONFIRMATION == 0
      && (call.value.fFlags & FOF_MULTIDESTFILES != 0 <==> |destinationNames| == |sourceNames|)
    ensures ok <==> call.Some? && shFileOperation(call.value) == 0
  {
    ok, call, lastError := ShellOp(sourceNames, destinationNames, FO_COPY, false, false, absolute, shFileOperation);
    FileOpFlagsBits(FO_COPY, false, false, false, |destinationNames| == |sourceNames|);
  }

  /** shellCopy of one name to one name: always handed to SHFileOperationW;
      yes-to-all skips the confirmation, otherwise the target is the
      destination file itself. */
  method ShellCopyOne(sourceName: string, destinationName: string, yesToAll: bool,
                      absolute: string -> string, shFileOperation: FileOp -> Int32)
    returns (ok: bool, call: Option<FileOp>, lastError: Option<DWord>)
    ensures call.Some? && call.value.wFunc == FO_COPY
    ensures call.value.pFrom == MultiSz([NativeSeparators(absolute(sourceName))])
    ensures call.value.pTo == MultiSz([NativeSeparators(absolute(destinationName))])
    ensures call.value.fFlags & FOF_NOCONFIRMATION != 0 <==> yesToAll
    ensures call.value.fFlags & FOF_MULTIDESTFILES != 0 <==> !yesToAll
    ensures ok <==> shFileOperation(call.value) == 0
  {
    ok, call, lastError := ShellOp([sourceName], [destinationName], FO_COPY, yesToAll, false, absolute, shFileOperation);
    FileOpFlagsBits(FO_COPY, false, yesToAll, false, true);
    assert NativePaths([sourceName], absolute) == [NativeSeparators(absolute(sourceName))];
    assert NativePaths([destinationName], absolute) == [NativeSeparators(absolute(destinationName))];
  }

  /** shellMove of two lists: a move without yes-to-all. */
  method ShellMove(sourceNames: seq<string>, destinationNames: seq<string>,
                   absolute: string -> string, shFileOperation: FileOp -> Int32)
    returns (ok: bool, call: Option<FileOp>, lastError: Option<DWord>)
    ensures call.Some? <==> |destinationNames| == |sourceNames| || |destinationNames| == 1
    ensures call.Some? ==>
      && call.value.wFunc == FO_MOVE
      && call.value.fFlags & FOF_NOCONFIRMATION == 0
      && (call.value.fFlags & FOF_MULTIDESTFILES != 0 <==> |destinationNames| == |sourceNames|)
    ensures ok <==> call.Some? && shFileOperation(call.value) == 0
  {
    ok, call, lastError := ShellOp(sourceNames, destinationNames, FO_MOVE, false, false, absolute, shFileOperation);
    FileOpFlagsBits(FO_MOVE, false, false, false, |destinationNames| == |sourceNames|);
  }

  /** shellMove of one name to one name, forwarding yes-to-all. */
  method ShellMoveOne(sourceName: string, destinationName: string, yesToAll: bool,
                      absolute: string -> string, shFileOperation: FileOp -> Int32)
    returns (ok: bool, call: Option<FileOp>, lastError: Option<DWord>)
    ensures call.Some? && call.value.wFunc == FO_MOVE
    ensures call.value.pFrom == MultiSz([NativeSeparators(absolute(sourceName))])
    ensures call.value.pTo == MultiSz([NativeSeparators(absolute(destinationName))])
    ensures call.value.fFlags & FOF_NOCONFIRMATION != 0 <==> yesToAll
    ensures call.value.fFlags & FOF_MULTIDESTFILES != 0 <==> !yesToAll
    ensures ok <==> shFileOperation(call.value) == 0
  {
    ok, call, lastError := ShellOp([sourceName], [destinationName], FO_MOVE, yesToAll, false, absolute, shFileOperation);
    FileOpFlagsBits(FO_MOVE, false, yesToAll, false, true);
    assert NativePaths([sourceName], absolute) == [NativeSeparators(absolute(sourceName))];
    assert NativePaths([destinationName], absolute) == [NativeSeparators(absolute(destinationName))];
  }

  /** shellRename: a rename of one name to one name, forwarding yes-to-all. */
  method ShellRename(oldName: string, newName: string, yesToAll: bool,
                     absolute: string -> string, shFileOperation: FileOp -> Int32)
    returns (ok: bool, call: Option<FileOp>, lastError: Option<DWord>)
    ensures call.Some? && call.value.wFunc == FO_RENAME
    ensures call.value.pFrom == MultiSz([NativeSeparators(absolute(oldName))])
    ensures call.value.pTo == MultiSz([NativeSeparators(absolute(newName))])
    ensures call.value.fFlags & FOF_NOCONFIRMATION != 0 <==> yesToAll
    ensures ok <==> shFileOperation(call.value) == 0
  {
    ok, call, lastError := ShellOp([oldName], [newName], FO_RENAME, yesToAll, false, absolute, shFileOperation);
    FileOpFlagsBits(FO_RENAME, false, yesToAll, false, true);
    assert NativePaths([oldName], absolute) == [NativeSeparators(absolute(oldName))];
    assert NativePaths([newName], absolute) == [NativeSeparators(absolute(newName))];
  }

  /** shellDelete: always handed to SHFileOperationW as a delete without
      destinations and without confirmation; it is undoable exactly when
      recycling. */
  method ShellDelete(fileNames: seq<string>, recycle: bool,
                     absolute: string -> string, shFileOperation: FileOp -> Int32)
    returns (ok: bool, call: Option<FileOp>, lastError: Option<DWord>)
    ensures call.Some? && call.value.wFunc == FO_DELETE
    ensures call.value.pFrom == MultiSz(NativePaths(fileNames, absolute))
    ensures call.value.pTo == (if fileNames == [] then [NUL] else [NUL, NUL])
    ensures call.value.fFlags & FOF_NOCONFIRMATION != 0
    ensures call.value.fFlags & FOF_ALLOWUNDO != 0 <==> recycle
    ensures ok <==> shFileOperation(call.value) == 0
  {
    var op := if recycle then FO_RECYCLE else FO_DELETE;
    ok, call, lastError := ShellOp(fileNames, [], op, false, false, absolute, shFileOperation);
    FileOpFlagsBits(FO_DELETE, recycle, false, false, fileNames == []);
    assert NativePaths([], absolute) == [];
  }

  // ---------------------------------------------------------------------------
  // The process handle of a Result
  // ---------------------------------------------------------------------------

  /** The null HANDLE, which a unique_ptr holding it never passes to its deleter. */
  const NULL_HANDLE: int := 0

  /** The process handle a Result owns (a unique_ptr whose deleter,
      HandleCloser, closes every handle except INVALID_HANDLE_VALUE), together
      with the handles closed so far. */
  class ProcessHandle {
    var process: int
    var closed: seq<int>

    constructor(process: int)
      ensures this.process == process && closed == []
    {
      this.process := process;
      closed := [];
    }

    /** stealProcessHandle: hands the handle to the caller and keeps
        INVALID_HANDLE_VALUE, so releasing this owner closes nothing. */
    method StealProcessHandle() returns (h: int)
      modifies this
      ensures h == old(process)
      ensures process == InvalidHandle(Windows) && closed == old(closed)
    {
      h := process;
      process := InvalidHandle(Windows);
    }

    /** The destructor: the unique_ptr calls the deleter for a non-null
        handle, and the deleter closes it unless it is invalid. */
    method Release()
      modifies this
      ensures closed == old(closed) + (if old(process) != NULL_HANDLE && old(process) != InvalidHandle(Windows) then [old(process)] else [])
      ensures process == NULL_HANDLE
    {
      if process != NULL_HANDLE && process != InvalidHandle(Windows) {
        closed := closed + [process];
      }
      process := NULL_HANDLE;
    }
  }

  /** A stolen handle is the caller's: destroying the Result afterwards closes
      nothing, while destroying it without stealing closes a valid handle
      once. */
  method StealBeforeRelease(h0: int, steal: bool) returns (stolen: Option<int>, closed: seq<int>)
    ensures steal ==> stolen == Some(h0) && closed == []
    ensures !steal ==> stolen == None && closed == (if h0 != NULL_HANDLE && h0 != InvalidHandle(Windows) then [h0] else [])
  {
    var owner := new ProcessHandle(h0);
    if steal {
      var h := owner.StealProcessHandle();
      stolen := Some(h);
    } else {
      stolen := None;
    }
    owner.Release();
    closed := owner.closed;
  }

  // ---------------------------------------------------------------------------
  // formatError
  // ---------------------------------------------------------------------------

  // ShellExecute error codes (shellapi.h, winerror.h).
  const ERROR_FILE_NOT_FOUND_W: int := 2
  const ERROR_BAD_FORMAT: int := 11
  const SE_ERR_ACCESSDENIED: int := 5
  const SE_ERR_OOM: int := 8
  const SE_ERR_SHARE: int := 26
  const SE_ERR_ASSOCINCOMPLETE: int := 27
  const SE_ERR_DDETIMEOUT: int := 28
  const SE_ERR_DDEFAIL: int := 29
  const SE_ERR_DDEBUSY: int := 30
  const SE_ERR_NOASSOC: int := 31
  const SE_ERR_DLLNOTFOUND: int := 32

  /** The codes formatError has a fixed description for. */
  const DescribedCodes: set<int> :=
    {0, ERROR_FILE_NOT_FOUND_W, ERROR_PATH_NOT_FOUND, ERROR_BAD_FORMAT, SE_ERR_ACCESSDENIED,
     SE_ERR_ASSOCINCOMPLETE, SE_ERR_DDEBUSY, SE_ERR_DDEFAIL, SE_ERR_DDETIMEOUT,
     SE_ERR_DLLNOTFOUND, SE_ERR_NOASSOC, SE_ERR_OOM, SE_ERR_SHARE}

  const UNKNOWN_ERROR: string := "Unknown error "

  /** formatError: the description of a ShellExecute return code. */
  function FormatError(i: int): (r: string)
    ensures i !in DescribedCodes ==>
      StartsWith(r, UNKNOWN_ERROR) && ParseDecimal(r[|UNKNOWN_ERROR|..]) == i
  {
    if i == 0 then "The operating system is out of memory or resources"
    else if i == ERROR_FILE_NOT_FOUND_W then "The specified file was not found"
    else if i == ERROR_PATH_NOT_FOUND then "The specified path was not found"
    else if i == ERROR_BAD_FORMAT then "The .exe file is invalid (non-Win32 .exe or error in .exe image)"
    else if i == SE_ERR_ACCESSDENIED then "The operating system denied access to the specified file"
    else if i == SE_ERR_ASSOCINCOMPLETE then "The file name association is incomplete or invalid"
    else if i == SE_ERR_DDEBUSY then
      "The DDE transaction could not be completed because other DDE transactions were being processed"
    else if i == SE_ERR_DDEFAIL then "The DDE transaction failed"
    else if i == SE_ERR_DDETIMEOUT then
      "The DDE transaction could not be completed because the request timed out"
    else if i == SE_ERR_DLLNOTFOUND then "The specified DLL was not found"
    else if i == SE_ERR_NOASSOC then
      "There is no application associated with the given file name extension"
    else if i == SE_ERR_OOM then "There was not enough memory to complete the operation"
    else if i == SE_ERR_SHARE then "A sharing violation occurred"
    else
      DecimalRoundTrip(i);
      assert (UNKNOWN_ERROR + Decimal(i))[|UNKNOWN_ERROR|..] == Decimal(i);
      UNKNOWN_ERROR + Decimal(i)
  }

  /** Two unknown codes are told apart by their text. */
  lemma FormatErrorDistinguishesUnknown(i: int, j: int)
    requires i !in DescribedCodes && j !in DescribedCodes && i != j
    ensures FormatError(i) != FormatError(j)
  {
    assert ParseDecimal(FormatError(i)[|UNKNOWN_ERROR|..]) == i;
    assert ParseDecimal(FormatError(j)[|UNKNOWN_ERROR|..]) == j;
  }

  // ---------------------------------------------------------------------------
  // ShellExecuteWrapper and its requests
  // ---------------------------------------------------------------------------

  /** The verb, file and parameters of a SHELLEXECUTEINFOW; None is a null
      pointer. */
  datatype ExecRequest = ExecRequest(verb: Option<string>, file: string, params: Option<string>)

  /** What ShellExecuteExW reports: success with the process handle it
      returned (0 when it started none), or failure with GetLastError. */
  datatype ExecOutcome = Launched(hProcess: int) | LaunchFailed(lastError: DWord)

  /** The parts LogShellFailure joins with spaces: the non-null ones of verb,
      file and parameters, in that order. */
  function FailureParts(request: ExecRequest): (parts: seq<string>)
    ensures |parts| == 1 + (if request.verb.Some? then 1 else 0) + (if request.params.Some? then 1 else 0)
    ensures parts[if request.verb.Some? then 1 else 0] == request.file
  {
    (match request.verb case Some(v) => [v] case None => [])
    + [request.file]
    + (match request.params case Some(p) => [p] case None => [])
  }

  /** The line LogShellFailure writes to the error log. */
  function FailureLine(sysText: int -> Option<string>, request: ExecRequest, error: DWord): string {
    "failed to invoke '" + Join(FailureParts(request), " ") + "': " + FormatSystemMessage(Windows, sysText, error)
  }

  /** ShellExecuteWrapper: a failure carries GetLastError, its system message
      and no process, and is logged; a success carries the process handle,
      INVALID_HANDLE_VALUE when none was started, and logs nothing. */
  function ShellExecuteWrapper(sysText: int -> Option<string>, request: ExecRequest,
                               shellExecuteEx: ExecRequest -> ExecOutcome): (out: (Result, seq<string>))
    ensures shellExecuteEx(request).Launched? ==>
      var h := shellExecuteEx(request).hProcess;
      out.0.success && out.0.error == ERROR_SUCCESS
      && out.0.process == (if h != 0 then h else InvalidHandle(Windows)) && out.1 == []
    ensures shellExecuteEx(request).LaunchFailed? ==>
      var e := shellExecuteEx(request).lastError;
      !out.0.success && out.0.error == e && out.0.process == InvalidHandle(Windows)
      && ReadHexCode(out.0.message) == Some(e)
      && out.1 == [FailureLine(sysText, request, e)]
  {
    match shellExecuteEx(request)
    case LaunchFailed(e) =>
      var message := FormatSystemMessage(Windows, sysText, e);
      assert e % 0x1_0000_0000 == e;
      (MakeFailure(Windows, sysText, e, message), [FailureLine(sysText, request, e)])
    case Launched(h) =>
      (MakeSuccess(Windows, sysText, if h != 0 then h else InvalidHandle(Windows)), [])
  }

  /** ExploreDirectory: the "explore" verb on the native absolute path. */
  function ExploreDirectoryRequest(absolutePath: string): ExecRequest {
    ExecRequest(Some("explore"), NativeSeparators(absolutePath), None)
  }

  const SELECT_PREFIX: string := "/select,\""

  /** ExploreFileInDirectory: explorer.exe with /select,"<native path>". */
  function ExploreFileRequest(absolutePath: string): ExecRequest {
    ExecRequest(None, "explorer", Some(SELECT_PREFIX + NativeSeparators(absolutePath) + "\""))
  }

  /** The path an explorer /select parameter names. */
  function SelectedPath(params: string): Option<string> {
    if StartsWith(params, SELECT_PREFIX) && |params| > |SELECT_PREFIX| && params[|params| - 1] == '"'
    then Some(params[|SELECT_PREFIX|..|params| - 1])
    else None
  }

  /** The file ExploreFileInDirectory selects is the native form of its path. */
  lemma ExploreFileSelectsPath(absolutePath: string)
    ensures ExploreFileRequest(absolutePath).params.Some?
    ensures SelectedPath(ExploreFileRequest(absolutePath).params.value) == Some(NativeSeparators(absolutePath))
  {
    var params := SELECT_PREFIX + NativeSeparators(absolutePath) + "\"";
    assert params[..|SELECT_PREFIX|] == SELECT_PREFIX;
    assert params[|SELECT_PREFIX|..|params| - 1] == NativeSeparators(absolutePath);
  }

  /** The request Explore hands to ShellExecuteExW, if any. */
  function ExploreRequest(info: FileInfo): Option<ExecRequest> {
    match ChooseExplore(info)
    case ShowFileInDirectory(p) => Some(ExploreFileRequest(p))
    case ShowDirectory(p) => Some(ExploreDirectoryRequest(p))
    case NotFound => None
  }

  /** Explore on Windows: the shared dispatch with ExploreFileInDirectory and
      ExploreDirectory as its backends, and makeFailure(ERROR_FILE_NOT_FOUND)
      when there is nothing to show. */
  function ExploreWindows(sysText: int -> Option<string>, info: FileInfo,
                          shellExecuteEx: ExecRequest -> ExecOutcome): Result
  {
    match ExploreRequest(info)
    case Some(request) => ShellExecuteWrapper(sysText, request, shellExecuteEx).0
    case None => MakeFailure(Windows, sysText, ERROR_FILE_NOT_FOUND, [])
  }

  /** A file is selected in explorer, a directory or the immediate parent is
      explored, and a missing path with a missing parent reaches no shell
      call and fails with ERROR_FILE_NOT_FOUND. */
  lemma ExploreWindowsRequests(sysText: int -> Option<string>, info: FileInfo,
                               shellExecuteEx: ExecRequest -> ExecOutcome)
    ensures info.isFile ==> ExploreRequest(info) == Some(ExploreFileRequest(info.path))
    ensures !info.isFile && info.isDir ==> ExploreRequest(info) == Some(ExploreDirectoryRequest(info.path))
    ensures !info.isFile && !info.isDir && info.parentExists ==>
      ExploreRequest(info) == Some(ExploreDirectoryRequest(info.parentPath))
    ensures ExploreRequest(info).Some? ==>
      ExploreWindows(sysText, info, shellExecuteEx) == ShellExecuteWrapper(sysText, ExploreRequest(info).value, shellExecuteEx).0
    ensures ExploreRequest(info).None? ==>
      var r := ExploreWindows(sysText, info, shellExecuteEx);
      !r.success && r.error == ERROR_FILE_NOT_FOUND && r.process == InvalidHandle(Windows)
  {
  }

  /** Open(path) and Execute(program, params): the "open" verb on the file
      as the caller wrote it, with no separator conversion. */
  function OpenRequest(file: string, params: Option<string>): (r: ExecRequest)
    ensures r.verb == Some("open") && r.file == file && r.params == params
  {
    ExecRequest(Some("open"), file, params)
  }

  /** Open(path): ShellExecuteWrapper with the "open" verb, the path and no
      parameters. */
  function Open(sysText: int -> Option<string>, path: string,
                shellExecuteEx: ExecRequest -> ExecOutcome): (out: (Result, seq<string>))
    ensures out == ShellExecuteWrapper(sysText, ExecRequest(Some("open"), path, None), shellExecuteEx)
  {
    ShellExecuteWrapper(sysText, OpenRequest(path, None), shellExecuteEx)
  }

  /** Execute(program, params): ShellExecuteWrapper with the "open" verb, the
      program and its parameters. */
  function Execute(sysText: int -> Option<string>, program: string, params: string,
                   shellExecuteEx: ExecRequest -> ExecOutcome): (out: (Result, seq<string>))
    ensures out == ShellExecuteWrapper(sysText, ExecRequest(Some("open"), program, Some(params)), shellExecuteEx)
  {
    ShellExecuteWrapper(sysText, OpenRequest(program, Some(params)), shellExecuteEx)
  }

  /** The line Open logs when ShellExecuteExW fails: the verb and the path
      separated by a space. */
  lemma OpenFailureLine(sysText: int -> Option<string>, path: string, e: DWord)
    ensures FailureLine(sysText, OpenRequest(path, None), e)
      == "failed to invoke 'open " + path + "': " + FormatSystemMessage(Windows, sysText, e)
  {
    assert Join(FailureParts(OpenRequest(path, None)), " ") == "open " + path by {
      assert FailureParts(OpenRequest(path, None)) == ["open", path];
      JoinPair("open", path);
    }
    assert "failed to invoke '" + ("open " + path) == "failed to invoke 'open " + path;
  }

  /** The line Execute logs when ShellExecuteExW fails: the verb, the program
      and its parameters separated by spaces. */
  lemma ExecuteFailureLine(sysText: int -> Option<string>, program: string, params: string, e: DWord)
    ensures FailureLine(sysText, OpenRequest(program, Some(params)), e)
      == "failed to invoke 'open " + program + " " + params + "': " + FormatSystemMessage(Windows, sysText, e)
  {
    assert Join(FailureParts(OpenRequest(program, Some(params))), " ") == "open " + program + " " + params by {
      assert FailureParts(OpenRequest(program, Some(params))) == ["open", program, params];
      JoinTriple("open", program, params);
    }
    assert "failed to invoke '" + ("open " + program + " " + params) == "failed to invoke 'open " + program + " " + params;
  }

  lemma JoinPair(a: string, b: string)
    ensures Join([a, b], " ") == a + " " + b
  {
    assert [a, b][..1] == [a];
  }

  lemma JoinTriple(a: string, b: string, c: string)
    ensures Join([a, b, c], " ") == a + " " + b + " " + c
  {
    assert [a, b, c][..2] == [a, b];
    JoinPair(a, b);
  }

  // ---------------------------------------------------------------------------
  // Open(url) and OpenCustomURL
  // ---------------------------------------------------------------------------

  /** FormatMessageW on the handler string with the URL as %1 and empty
      strings as %2..%99: the command line, or failure with GetLastError. */
  datatype FormatOutcome = Formatted(command: string) | FormatFailed(formatError: DWord)

  /** CreateProcessW on a command line: started (both handles are closed at
      once), or failure with GetLastError. */
  datatype CreateOutcome = Created | CreateFailed(createError: DWord)

  /** OpenCustomURL: formats the handler with the URL and runs the resulting
      command line. `ran` is the command line CreateProcessW received, if
      any. */
  function OpenCustomURL(sysText: int -> Option<string>, format: string, url: string,
                         formatMessage: (string, string) -> FormatOutcome,
                         createProcess: string -> CreateOutcome): (out: (Result, Option<string>))
    ensures formatMessage(format, url).FormatFailed? ==>
      out.1 == None && !out.0.success && out.0.error == formatMessage(format, url).formatError
    ensures formatMessage(format, url).Formatted? ==>
      var cmd := formatMessage(format, url).command;
      out.1 == Some(cmd)
      && (createProcess(cmd).Created? ==>
            out.0.success && out.0.error == ERROR_SUCCESS && out.0.process == InvalidHandle(Windows))
      && (createProcess(cmd).CreateFailed? ==>
            !out.0.success && out.0.error == createProcess(cmd).createError)
    ensures out.0.message != []
  {
    match formatMessage(format, url)
    case FormatFailed(e) => (MakeFailure(Windows, sysText, e, []), None)
    case Formatted(cmd) =>
      match createProcess(cmd)
      case CreateFailed(e) => (MakeFailure(Windows, sysText, e, []), Some(cmd))
      case Created => (MakeSuccess(Windows, sysText, InvalidHandle(Windows)), Some(cmd))
  }

  /** Open(url): the default "open" verb when no custom handler is stored,
      the custom handler otherwise. */
  function OpenUrl(setting: UrlHandlerSetting, sysText: int -> Option<string>, url: string,
                   shellExecuteEx: ExecRequest -> ExecOutcome,
                   formatMessage: (string, string) -> FormatOutcome,
                   createProcess: string -> CreateOutcome): (r: Result)
    reads setting
    ensures RouteUrl(setting.handler) == DefaultOpen ==>
      r == ShellExecuteWrapper(sysText, OpenRequest(url, None), shellExecuteEx).0
    ensures RouteUrl(setting.handler) == CustomHandler(setting.handler) ==>
      r == OpenCustomURL(sysText, setting.handler, url, formatMessage, createProcess).0
  {
    if setting.handler == [] then ShellExecuteWrapper(sysText, OpenRequest(url, None), shellExecuteEx).0
    else OpenCustomURL(sysText, setting.handler, url, formatMessage, createProcess).0
  }

  // ---------------------------------------------------------------------------
  // trimWString
  // ---------------------------------------------------------------------------

  /** s with every whitespace character taken out, the rest kept in order. */
  function RemoveSpaces(s: string): (r: string)
    ensures |r| <= |s|
    ensures forall i :: 0 <= i < |r| ==> !IsSpace(r[i])
    decreases |s|
  {
    if s == [] then []
    else RemoveSpaces(s[..|s| - 1]) + (if IsSpace(s[|s| - 1]) then [] else [s[|s| - 1]])
  }

  /** Every character that is not whitespace survives, as often as it occurs. */
  lemma {:induction false} RemoveSpacesKeepsText(s: string, c: char)
    requires !IsSpace(c)
    ensures multiset(RemoveSpaces(s))[c] == multiset(s)[c]
    decreases |s|
  {
    if s != [] {
      var init := s[..|s| - 1];
      RemoveSpacesKeepsText(init, c);
      assert s == init + [s[|s| - 1]];
    }
  }

  /** trimWString as written: std::remove_if over the whole string followed by
      erase, compacting the non-whitespace characters to the front. The
      string's new length is returned. */
  method TrimWString(s: array<char>) returns (n: nat)
    modifies s
    ensures n <= s.Length
    ensures s[..n] == RemoveSpaces(old(s[..]))
  {
    ghost var original := s[..];
    n := 0;
    var i := 0;
    while i < s.Length
      invariant 0 <= n <= i <= s.Length
      invariant s[..n] == RemoveSpaces(original[..i])
      invariant forall k :: i <= k < s.Length ==> s[k] == original[k]
    {
      var ch := s[i];
      assert original[..i + 1] == original[..i] + [ch];
      assert original[..i + 1][..i] == original[..i];
      if !IsSpace(ch) {
        ghost var prefix := s[..n];
        s[n] := ch;
        assert s[..n] == prefix;
        assert s[..n + 1] == prefix + [ch];
        n := n + 1;
      }
      i := i + 1;
    }
    assert original[..s.Length] == original;
  }

  /** getMessage as written: the system text with every whitespace character
      removed. */
  function GetMessageAsWritten(raw: Option<string>): string {
    match raw
    case None => []
    case Some(text) => RemoveSpaces(text)
  }

  /** A system message of two words, such as "Access is denied." (ending in
      CR LF as FormatMessageW leaves it), loses its word break as written. */
  lemma TrimWStringJoinsWords(w1: string, w2: string)
    requires forall i :: 0 <= i < |w1| ==> !IsSpace(w1[i])
    requires forall i :: 0 <= i < |w2| ==> !IsSpace(w2[i])
    ensures GetMessageAsWritten(Some(w1 + " " + w2 + "\r\n")) == w1 + w2
  {
    var space, crlf := " ", "\r\n";
    assert RemoveSpaces(space) == [] by { assert space[..0] == []; }
    assert RemoveSpaces(crlf) == [] by {
      assert crlf[..1] == "\r";
      assert "\r"[..0] == [];
    }
    RemoveSpacesNoSpace(w1);
    RemoveSpacesNoSpace(w2);
    RemoveSpacesAppend(w1, space);
    assert RemoveSpaces(w1 + space) == w1;
    RemoveSpacesAppend(w1 + space, w2);
    assert RemoveSpaces(w1 + space + w2) == w1 + w2;
    RemoveSpacesAppend(w1 + space + w2, crlf);
    assert RemoveSpaces(w1 + space + w2 + crlf) == w1 + w2;
  }

  /** Trimming only the ends, as GetMessage does, keeps the word break. */
  lemma GetMessageKeepsWords(w1: string, w2: string)
    requires w1 != [] && w2 != []
    requires forall i :: 0 <= i < |w1| ==> !IsSpace(w1[i])
    requires forall i :: 0 <= i < |w2| ==> !IsSpace(w2[i])
    ensures GetMessage(Some(w1 + " " + w2 + "\r\n")) == w1 + " " + w2
  {
    var m := w1 + " " + w2;
    var t := m + "\r\n";
    assert TrimStartIndex(t) == 0 by { assert t[0] == w1[0]; }
    assert TrimEndIndex(t) == |m| by {
      assert t[|t| - 1] == '\n' && t[|t| - 2] == '\r';
      assert t[|m| - 1] == w2[|w2| - 1];
      assert SkipSpacesBack(t, 0, |m|) == |m|;
      assert SkipSpacesBack(t, 0, |m| + 1) == |m|;
      assert SkipSpacesBack(t, 0, |t|) == |m|;
    }
    assert t[0..|m|] == m;
  }

  lemma {:induction false} RemoveSpacesAppend(a: string, b: string)
    ensures RemoveSpaces(a + b) == RemoveSpaces(a) + RemoveSpaces(b)
    decreases |b|
  {
    if b == [] {
      assert a + b == a;
    } else {
      var init := b[..|b| - 1];
      assert (a + b)[..|a + b| - 1] == a + init;
      RemoveSpacesAppend(a, init);
    }
  }

  lemma {:induction false} RemoveSpacesNoSpace(s: string)
    requires forall i :: 0 <= i < |s| ==> !IsSpace(s[i])
    ensures RemoveSpaces(s) == s
    decreases |s|
  {
    if s != [] {
      RemoveSpacesNoSpace(s[..|s| - 1]);
    }
  }
}
