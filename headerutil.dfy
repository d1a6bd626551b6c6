/** The template utilities of the Linux utility header: the truncated joins
    of a vector and of a set, isOneOf, the call-once Guard and the line
    filter of forEachLineInFile.

    Elements are given by their text (what `QTextStream <<` writes for them);
    a std::set is given by its elements in iteration order. */
module HeaderUtil {
  import opened Common

  // ---------------------------------------------------------------------------
  // VectorJoin and SetJoin
  // ---------------------------------------------------------------------------

  /** The text that marks a truncated join. */
  const ELLIPSIS: string := "..."

  /** How many elements a truncated join prints for a non-empty container:
      the first one always, then up to `maximum` in all. */
  function ShownCount(size: nat, maximum: nat): (n: nat)
    requires size >= 1
    ensures 1 <= n <= size
    ensures maximum >= 1 ==> n == (if size < maximum then size else maximum)
  {
    if maximum < 1 then 1 else if size < maximum then size else maximum
  }

  /** What a truncated join of `value` is meant to give: nothing for an empty
      container; otherwise the shown elements joined by the separator, then
      the separator and "..." exactly when there are more than `maximum`
      elements. */
  function TruncatedJoin(value: seq<string>, separator: string, maximum: nat): string {
    if value == [] then ""
    else
      Join(value[..ShownCount(|value|, maximum)], separator)
      + (if maximum < |value| then separator + ELLIPSIS else "")
  }

  /** Appending one element to a join appends the separator and the element. */
  lemma JoinStep(value: seq<string>, separator: string, i: nat)
    requires 1 <= i < |value|
    ensures Join(value[..i + 1], separator) == Join(value[..i], separator) + separator + value[i]
  {
    assert value[..i + 1][..i] == value[..i];
  }

  /** VectorJoin: the first element, then each further element up to the
      limit after a separator, then the ellipsis when elements were left out. */
  method VectorJoin(value: seq<string>, separator: string, maximum: nat) returns (result: string)
    ensures result == TruncatedJoin(value, separator, maximum)
  {
    result := "";
    if value != [] {
      result := value[0];
      assert value[..1] == [value[0]];
      var limit := if |value| < maximum then |value| else maximum;
      var i := 1;
      while i < limit
        invariant 1 <= i <= |value|
        invariant i <= limit || i == 1
        invariant result == Join(value[..i], separator)
      {
        JoinStep(value, separator, i);
        result := result + separator + value[i];
        i := i + 1;
      }
      assert i == ShownCount(|value|, maximum);
      if maximum < |value| {
        result := result + separator + ELLIPSIS;
      }
    }
  }

  /** What SetJoin prints as written: its counter stays at 1, so every
      element is printed when maximum is at least 2 and only the first one
      otherwise; the ellipsis still follows whenever there are more than
      `maximum` elements. */
  function SetJoinText(value: seq<string>, separator: string, maximum: nat): string {
    if value == [] then ""
    else
      Join(value[..if maximum <= 1 then 1 else |value|], separator)
      + (if maximum < |value| then separator + ELLIPSIS else "")
  }

  /** SetJoin as written: the loop's `pos < maximum` test never changes. */
  method SetJoinAsWritten(value: seq<string>, separator: string, maximum: nat) returns (result: string)
    ensures result == SetJoinText(value, separator, maximum)
  {
    result := "";
    if value != [] {
      result := value[0];
      assert value[..1] == [value[0]];
      var pos := 1;
      var i := 1;
      while i < |value| && pos < maximum
        invariant 1 <= i <= |value|
        invariant maximum <= 1 ==> i == 1
        invariant result == Join(value[..i], separator)
      {
        JoinStep(value, separator, i);
        result := result + separator + value[i];
        i := i + 1;
      }
      assert value[..i] == value[..if maximum <= 1 then 1 else |value|];
      if maximum < |value| {
        result := result + separator + ELLIPSIS;
      }
    }
  }

  /** SetJoin with the counter advanced with the iterator: the same text as
      VectorJoin gives for the elements in iteration order. */
  method SetJoin(value: seq<string>, separator: string, maximum: nat) returns (result: string)
    ensures result == TruncatedJoin(value, separator, maximum)
  {
    result := "";
    if value != [] {
      result := value[0];
      assert value[..1] == [value[0]];
      var pos := 1;
      var i := 1;
      while i < |value| && pos < maximum
        invariant 1 <= i <= |value| && pos == i
        invariant i <= maximum || i == 1
        invariant result == Join(value[..i], separator)
      {
        JoinStep(value, separator, i);
        result := result + separator + value[i];
        i := i + 1;
        pos := pos + 1;
      }
      assert i == ShownCount(|value|, maximum);
      if maximum < |value| {
        result := result + separator + ELLIPSIS;
      }
    }
  }

  /** Splitting a join on its one-character separator gives back the parts
      when none of them holds that character. */
  lemma {:induction false} SplitJoin(parts: seq<string>, c: char)
    requires |parts| >= 1
    requires forall k :: 0 <= k < |parts| ==> c !in parts[k]
    ensures Split(Join(parts, [c]), c) == parts
    decreases |parts|
  {
    if |parts| == 1 {
      NoSeparatorIsOnePart(parts[0], c);
    } else {
      var init := parts[..|parts| - 1];
      SplitJoin(init, c);
      SplitAppend(Join(init, [c]), c, parts[|parts| - 1]);
      assert init + [parts[|parts| - 1]] == parts;
    }
  }

  lemma NoSeparatorIsOnePart(s: string, c: char)
    requires c !in s
    ensures Split(s, c) == [s]
  {
  }

  /** Read back on a one-character separator no element holds, a truncated
      join lists exactly the shown elements, followed by "..." when some were
      left out. */
  lemma TruncatedJoinParts(value: seq<string>, c: char, maximum: nat)
    requires value != []
    requires c !in ELLIPSIS
    requires forall k :: 0 <= k < |value| ==> c !in value[k]
    ensures var n := ShownCount(|value|, maximum);
      Split(TruncatedJoin(value, [c], maximum), c)
        == value[..n] + (if maximum < |value| then [ELLIPSIS] else [])
  {
    var n := ShownCount(|value|, maximum);
    var shown := value[..n];
    assert forall k :: 0 <= k < |shown| ==> c !in shown[k];
    var joined := Join(shown, [c]);
    if maximum < |value| {
      assert TruncatedJoin(value, [c], maximum) == joined + [c] + ELLIPSIS;
      SplitJoin(shown, c);
      SplitAppend(joined, c, ELLIPSIS);
    } else {
      assert TruncatedJoin(value, [c], maximum) == joined;
      SplitJoin(shown, c);
      assert shown + [] == shown;
    }
  }

  /** With at least two elements allowed and more elements than that, SetJoin
      as written prints every element and still appends "..."; the corrected
      join prints `maximum` of them. */
  lemma SetJoinPrintsEverything(value: seq<string>, c: char, maximum: nat)
    requires 2 <= maximum < |value|
    requires c !in ELLIPSIS
    requires forall k :: 0 <= k < |value| ==> c !in value[k]
    ensures Split(SetJoinText(value, [c], maximum), c) == value + [ELLIPSIS]
    ensures Split(TruncatedJoin(value, [c], maximum), c) == value[..maximum] + [ELLIPSIS]
  {
    var parts := value + [ELLIPSIS];
    SplitJoin(parts, c);
    assert parts[..|parts| - 1] == value;
    assert value[..|value|] == value;
    assert SetJoinText(value, [c], maximum) == Join(parts, [c]);
    TruncatedJoinParts(value, c, maximum);
  }

  // ---------------------------------------------------------------------------
  // isOneOf
  // ---------------------------------------------------------------------------

  /** std::find: the index of the first element equal to `val`, or the
      length when there is none. */
  function Find<T(==)>(list: seq<T>, val: T): (i: nat)
    ensures i <= |list|
    ensures i < |list| ==> list[i] == val
    ensures forall j :: 0 <= j < i ==> list[j] != val
    decreases |list|
  {
    if list == [] then 0
    else if list[0] == val then 0
    else 1 + Find(list[1..], val)
  }

  /** isOneOf: whether std::find stops before the end of the list. */
  function IsOneOf<T(==)>(val: T, list: seq<T>): (r: bool)
    ensures r <==> exists i :: 0 <= i < |list| && list[i] == val
  {
    Find(list, val) != |list|
  }

  // ---------------------------------------------------------------------------
  // Guard
  // ---------------------------------------------------------------------------

  /** A Guard over a callable; the callable is given by an identity of type
      F, and running it is reported by the destructor. */
  class Guard<F> {
    var f: F
    var call: bool

    /** Guard(f): armed. */
    constructor (f0: F)
      ensures f == f0 && call
    {
      f := f0;
      call := true;
    }

    /** Guard(): disarmed; the callable is a placeholder. */
    constructor Empty(placeholder: F)
      ensures !call && f == placeholder
    {
      f := placeholder;
      call := false;
    }

    /** kill: disarms the guard. */
    method Kill()
      modifies this
      ensures !call && f == old(f)
    {
      call := false;
    }

    /** The destructor: the callable runs exactly when the guard is armed. */
    method Destroy() returns (ran: Option<F>)
      ensures call ==> ran == Some(f)
      ensures !call ==> ran == None
    {
      ran := if call then Some(f) else None;
    }

    /** Move assignment as written: the callable moves over and the source is
      disarmed, but the target keeps its own armed flag. */
    method MoveAssignAsWritten(g: Guard<F>)
      modifies this, g
      ensures f == old(g.f) && !g.call
      ensures g != this ==> call == old(call)
      ensures g == this ==> !call
    {
      f := g.f;
      g.call := false;
    }

    /** Move assignment that hands the armed flag over with the callable: the
      target runs the source's callable exactly when the source would have. */
    method MoveAssign(g: Guard<F>)
      modifies this, g
      ensures g != this ==> f == old(g.f) && call == old(g.call) && !g.call
      ensures g == this ==> f == old(f) && call == old(call)
    {
      if g != this {
        f := g.f;
        call := g.call;
        g.call := false;
      }
    }
  }

  /** Moving an armed guard into a default-constructed one: as written
      neither guard runs the callable when destroyed; with the flag handed
      over the target runs it once and the moved-from guard does not. */
  method MoveIntoEmptyGuard<F>(callback: F, placeholder: F)
    returns (asWrittenTarget: Option<F>, asWrittenSource: Option<F>,
             correctedTarget: Option<F>, correctedSource: Option<F>)
    ensures asWrittenTarget == None && asWrittenSource == None
    ensures correctedTarget == Some(callback) && correctedSource == None
  {
    var source := new Guard(callback);
    var target := new Guard.Empty(placeholder);
    target.MoveAssignAsWritten(source);
    asWrittenTarget := target.Destroy();
    asWrittenSource := source.Destroy();

    var source2 := new Guard(callback);
    var target2 := new Guard.Empty(placeholder);
    target2.MoveAssign(source2);
    correctedTarget := target2.Destroy();
    correctedSource := source2.Destroy();
  }

  // ---------------------------------------------------------------------------
  // forEachLineInFile
  // ---------------------------------------------------------------------------

  /** Whether a line read from the file reaches the callback, and with what:
      the line with surrounding whitespace removed, unless that is empty or
      starts with '#'. */
  function KeptLine(line: string): Option<string> {
    var t := Trimmed(line);
    if t == [] || t[0] == '#' then None else Some(t)
  }

  /** The callback's arguments for the lines of a file, in file order. */
  function KeptLines(lines: seq<string>): (kept: seq<string>)
    ensures |kept| <= |lines|
    decreases |lines|
  {
    if lines == [] then []
    else
      var last := lines[|lines| - 1];
      KeptLines(lines[..|lines| - 1]) + (match KeptLine(last) case Some(t) => [t] case None => [])
  }

  /** Every line the callback receives is trimmed, non-empty and not a
      comment. */
  lemma {:induction false} KeptLinesAreClean(lines: seq<string>)
    ensures forall k :: 0 <= k < |KeptLines(lines)| ==>
      var t := KeptLines(lines)[k];
      t != [] && t[0] != '#' && !IsSpace(t[0]) && !IsSpace(t[|t| - 1])
    decreases |lines|
  {
    if lines != [] {
      KeptLinesAreClean(lines[..|lines| - 1]);
      var t := Trimmed(lines[|lines| - 1]);
      TrimmedEnds(lines[|lines| - 1]);
    }
  }

  /** Lines that are blank or comments contribute nothing, and a file made
      only of such lines calls the callback never. */
  lemma {:induction false} BlankAndCommentLinesSkipped(lines: seq<string>)
    requires forall k :: 0 <= k < |lines| ==> KeptLine(lines[k]).None?
    ensures KeptLines(lines) == []
    decreases |lines|
  {
    if lines != [] {
      BlankAndCommentLinesSkipped(lines[..|lines| - 1]);
    }
  }

  /** forEachLineInFile: nothing is read and false is returned when the file
      is not open, is empty or is not readable; otherwise the callback gets
      every kept line in file order and true is returned. `lines` are the
      lines readLine returns until the end of the file. */
  method ForEachLineInFile(isOpen: bool, size: int, isReadable: bool, lines: seq<string>)
    returns (ok: bool, calls: seq<string>)
    ensures !ok <==> (!isOpen || size == 0 || !isReadable)
    ensures !ok ==> calls == []
    ensures ok ==> calls == KeptLines(lines)
  {
    if !isOpen || size == 0 || !isReadable {
      return false, [];
    }
    calls := [];
    var i := 0;
    while i < |lines|
      invariant 0 <= i <= |lines|
      invariant calls == KeptLines(lines[..i])
    {
      var line := lines[i];
      assert lines[..i + 1][..i] == lines[..i];
      if line != [] {
        line := Trimmed(line);
        if !(line != [] && line[0] == '#') && line != [] {
          calls := calls + [line];
        }
      }
      i := i + 1;
    }
    assert lines[..|lines|] == lines;
    ok := true;
  }
}
