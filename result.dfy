/** The outcome of a shell operation (`shell::Result`) and the system-message
    formatting that fills in its text when the caller supplies none.

    Both platform builds share the shape of the type: a success flag, an
    error code, a message and a process handle. They differ in the value of
    an invalid handle (INVALID_HANDLE_VALUE on Windows, 0 on Linux) and in
    how a system message is rendered. The operating system's own message
    text (FormatMessageW, strerror) is an oracle passed in as `sysText`. */
module ShellResult {
  import opened Common

  /** A Win32 DWORD. */
  type DWord = x: int | 0 <= x < 0x1_0000_0000

  /** The build the code is compiled for. */
  datatype Os = Windows | Linux

  /** ERROR_SUCCESS on Windows and EXIT_SUCCESS on Linux. */
  const ERROR_SUCCESS: int := 0
  /** ERROR_FILE_NOT_FOUND on Windows; ENOENT, which the Linux build uses in its place. */
  const ERROR_FILE_NOT_FOUND: int := 2

  /** INVALID_HANDLE_VALUE: the all-ones HANDLE on Windows, 0 on Linux. */
  function InvalidHandle(os: Os): int {
    match os
    case Windows => -1
    case Linux => 0
  }

  // ---------------------------------------------------------------------------
  // Message formatting
  // ---------------------------------------------------------------------------

  /** The Windows rendering of a code with its message: "0x<hex>" alone, or
      "<message> (0x<hex>)". */
  function FormatHexMessage(id: DWord, message: string): (r: string)
    ensures message == [] ==> StartsWith(r, "0x")
    ensures message != [] ==> StartsWith(r, message) && r[|r| - 1] == ')'
    ensures ReadHexCode(r) == Some(id)
  {
    var code := "0x" + Hex(id);
    HexRoundTrip(id);
    ToBaseDigits(id, 16);
    if message == [] then
      assert code[2..] == Hex(id);
      code
    else
      var r := message + " (" + code + ")";
      assert r == (message + " ") + ['('] + ("0x" + Hex(id) + ")");
      LastIndexBefore(message + " ", '(', "0x" + Hex(id) + ")");
      assert r[|message| + 4..|r| - 1] == Hex(id);
      r
  }

  /** Reads the code back from a rendering of FormatHexMessage: the hex
      digits between the last "(0x" and the closing parenthesis, or after a
      leading "0x" when there is no message. */
  function ReadHexCode(r: string): Option<int> {
    if r != [] && r[|r| - 1] == ')' then
      var i := LastIndex(r, '(');
      if 0 <= i && i + 3 <= |r| - 1 && r[i + 1..i + 3] == "0x" then Some(FromBase(r[i + 3..|r| - 1], 16))
      else None
    else if StartsWith(r, "0x") then Some(FromBase(r[2..], 16))
    else None
  }

  /** The Linux rendering: "<decimal code>: <message>". */
  function FormatDecimalMessage(error: int, message: string): (r: string)
    ensures StartsWith(r, Decimal(error) + ": ")
    ensures |r| >= |message| && r[|r| - |message|..] == message
    ensures ReadDecimalCode(r) == error
  {
    var r := Decimal(error) + ": " + message;
    assert r == Decimal(error) + [':'] + (" " + message);
    DecimalSeparatorFree(error);
    FirstIndexAfter(Decimal(error), ':', " " + message);
    DecimalRoundTrip(error);
    assert r[..|Decimal(error)|] == Decimal(error);
    r
  }

  /** Reads the code back from a Linux rendering: the number before the first ':'. */
  function ReadDecimalCode(r: string): int {
    ParseDecimal(r[..FirstIndex(r, ':')])
  }

  /** getMessage: the system text for an id, or the empty string when the
      system has none, with surrounding whitespace (the trailing CR LF
      FormatMessageW appends) removed. */
  function GetMessage(raw: Option<string>): (r: string)
    ensures raw.None? ==> r == []
    ensures r == [] || (!IsSpace(r[0]) && !IsSpace(r[|r| - 1]))
  {
    match raw
    case None => []
    case Some(text) => TrimmedEnds(text); Trimmed(text)
  }

  /** formatSystemMessage for the build: on Windows the system text (None
      when FormatMessageW fails) rendered with FormatHexMessage, on Linux
      strerror's text rendered with FormatDecimalMessage. */
  function FormatSystemMessage(os: Os, sysText: int -> Option<string>, id: int): (r: string)
    ensures r != []
    ensures os == Windows ==> ReadHexCode(r) == Some(id % 0x1_0000_0000)
    ensures os == Linux ==> ReadDecimalCode(r) == id
  {
    match os
    case Windows => FormatHexMessage(id % 0x1_0000_0000, GetMessage(sysText(id)))
    case Linux =>
      var text := match sysText(id) case Some(t) => t case None => [];
      FormatDecimalMessage(id, text)
  }

  // ---------------------------------------------------------------------------
  // Result
  // ---------------------------------------------------------------------------

  datatype Result = Result(success: bool, error: int, message: string, process: int)

  /** The constructor: an empty message is replaced by the system message for
      the error code, so a Result never carries an empty message. */
  function NewResult(os: Os, sysText: int -> Option<string>, success: bool, error: int,
                     message: string, process: int): (r: Result)
    ensures r.success == success && r.error == error && r.process == process
    ensures r.message != []
    ensures message != [] ==> r.message == message
    ensures message == [] && os == Windows ==> ReadHexCode(r.message) == Some(error % 0x1_0000_0000)
    ensures message == [] && os == Linux ==> ReadDecimalCode(r.message) == error
  {
    Result(success, error, if message == [] then FormatSystemMessage(os, sysText, error) else message, process)
  }

  /** makeFailure: unsuccessful, with the given code and no process. */
  function MakeFailure(os: Os, sysText: int -> Option<string>, error: int, message: string): (r: Result)
    ensures !r.success && r.error == error
    ensures r.process == InvalidHandle(os)
    ensures r.message != [] && (message != [] ==> r.message == message)
  {
    NewResult(os, sysText, false, error, message, InvalidHandle(os))
  }

  /** makeSuccess: successful, with ERROR_SUCCESS and the given process (none by default). */
  function MakeSuccess(os: Os, sysText: int -> Option<string>, process: int): (r: Result)
    ensures r.success && r.error == ERROR_SUCCESS && r.process == process
    ensures r.message != []
  {
    NewResult(os, sysText, true, ERROR_SUCCESS, [], process)
  }

  /** A std::error_code: its value and its message. */
  datatype ErrorCode = ErrorCode(value: int, text: string)

  /** The Linux makeFailure(std::error_code): the code's value and message. */
  function MakeFailureFromCode(sysText: int -> Option<string>, code: ErrorCode): (r: Result)
    ensures !r.success && r.error == code.value && r.process == InvalidHandle(Linux)
    ensures code.text != [] ==> r.message == code.text
  {
    MakeFailure(Linux, sysText, code.value, code.text)
  }

  /** toString: the message, or "Error <code>" when the message is empty. */
  function ToString(r: Result): (s: string)
    ensures r.message != [] ==> s == r.message
    ensures r.message == [] ==> StartsWith(s, "Error ") && ParseDecimal(s[6..]) == r.error
  {
    if r.message == [] then
      DecimalRoundTrip(r.error);
      assert ("Error " + Decimal(r.error))[6..] == Decimal(r.error);
      "Error " + Decimal(r.error)
    else r.message
  }

  /** Every Result built by the constructor renders as its message: the
      "Error <code>" fallback of toString is never reached. */
  lemma ToStringIsMessage(os: Os, sysText: int -> Option<string>, success: bool, error: int,
                          message: string, process: int)
    ensures var r := NewResult(os, sysText, success, error, message, process);
      ToString(r) == r.message && r.message != []
  {
  }
}
