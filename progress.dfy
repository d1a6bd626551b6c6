/** The Linux task progress manager: a table from task id to the time of the
    task's last update and its percentage, a counter handing out ids, and the
    pruning and averaging step that turns the table into the launcher's
    progress value.

    Times are whole seconds of the clock, passed in by the caller (one
    reading per call). The D-Bus signal is returned instead of sent. */
module TaskProgress {
  import opened Common

  /** quint32. */
  type U32 = x: int | 0 <= x < 0x1_0000_0000

  /** An entry of the table: when the task last reported, and its percentage. */
  datatype Entry = Entry(time: int, percent: int)

  /** How long an entry survives without an update, in seconds. */
  const STALE_AFTER: int := 15

  /** An entry is kept by the pruning step while it is younger than 15 s. */
  predicate Fresh(e: Entry, now: int) {
    now - e.time < STALE_AFTER
  }

  /** The table after pruning: exactly the fresh entries. */
  function Retained(m: map<U32, Entry>, now: int): (r: map<U32, Entry>)
    ensures forall k :: k in r <==> k in m && Fresh(m[k], now)
    ensures forall k :: k in r ==> r[k] == m[k]
  {
    map k | k in m && Fresh(m[k], now) :: m[k]
  }

  /** The sum of the percentages of a table. */
  ghost function Total(m: map<U32, Entry>): int
    decreases |m|
  {
    if m == map[] then 0
    else
      var k :| k in m;
      assert |m - {k}| < |m| by { assert (m - {k}).Keys < m.Keys; }
      m[k].percent + Total(m - {k})
  }

  /** The sum can be split at any entry. */
  lemma {:induction false} TotalRemove(m: map<U32, Entry>, k: U32)
    requires k in m
    ensures Total(m) == m[k].percent + Total(m - {k})
    decreases |m|
  {
    var j :| j in m && Total(m) == m[j].percent + Total(m - {j});
    if j != k {
      assert |m - {j}| < |m| by { assert (m - {j}).Keys < m.Keys; }
      assert |m - {k}| < |m| by { assert (m - {k}).Keys < m.Keys; }
      TotalRemove(m - {j}, k);
      TotalRemove(m - {k}, j);
      assert m - {j} - {k} == m - {k} - {j};
    }
  }

  /** A table whose percentages lie in [lo, hi] sums to between lo and hi
      times its size. */
  lemma {:induction false} TotalBounds(m: map<U32, Entry>, lo: int, hi: int)
    requires forall k :: k in m ==> lo <= m[k].percent <= hi
    ensures lo * |m| <= Total(m) <= hi * |m|
    decreases |m|
  {
    if m != map[] {
      var k :| k in m;
      var r := m - {k};
      TotalRemove(m, k);
      assert r.Keys == m.Keys - {k};
      assert |r| == |m| - 1;
      TotalBounds(r, lo, hi);
      MulSucc(lo, |r|);
      MulSucc(hi, |r|);
    }
  }

  lemma SmallQuotient(a: int, d: int)
    requires 0 <= a < d
    ensures a / d == 0
  {
  }

  lemma MulSucc(a: int, n: nat)
    ensures a * (n + 1) == a * n + a
  {
  }

  // ---------------------------------------------------------------------------
  // The progress value
  // ---------------------------------------------------------------------------

  /** The signal's content when the progress is computed as a fraction:
      hidden, or the retained percentages' sum out of 100 per retained task. */
  datatype Progress = Hidden | Fraction(total: int, outOf: nat)

  /** The signal as written: hidden for an empty table, otherwise visible with
      the integer quotient total / (count * 100) over the retained entries,
      which has no value when every entry was pruned. */
  datatype Signal = NotVisible | Visible(progress: int) | DivisionByZero

  ghost function SignalAsWritten(m: map<U32, Entry>, now: int): Signal {
    if m == map[] then NotVisible
    else
      var kept := Retained(m, now);
      if |kept| == 0 then DivisionByZero else Visible(Total(kept) / (|kept| * 100))
  }

  /** The signal meant: hidden when no entry survives the pruning, otherwise
      the average progress as a fraction of the whole. */
  ghost function ProgressOf(m: map<U32, Entry>, now: int): Progress {
    var kept := Retained(m, now);
    if kept == map[] then Hidden else Fraction(Total(kept), |kept| * 100)
  }

  /** What one call of updateProgress or forgetMe comes to: nothing when the
      manager is not working; the progress, both as meant and as the signal
      written would carry it; or the fault of updateProgress's division by a
      zero `max`. */
  datatype CallOutcome = Ignored | Reported(progress: Progress, sent: Signal) | DividedByZero

  /** The corrected signal from the two accumulators of the pruning loop. */
  function ProgressFrom(total: int, count: nat): (p: Progress)
    ensures p.Hidden? <==> count == 0
  {
    if count == 0 then Hidden else Fraction(total, count * 100)
  }

  /** When every entry of a non-empty table is stale, the signal as written
      divides by zero; the corrected signal hides the progress. */
  lemma AllStaleDividesByZero(m: map<U32, Entry>, now: int)
    requires m != map[]
    requires forall k :: k in m ==> !Fresh(m[k], now)
    ensures SignalAsWritten(m, now) == DivisionByZero
    ensures ProgressOf(m, now) == Hidden
  {
    var kept := Retained(m, now);
    assert kept.Keys == {};
    assert kept == map[];
  }

  /** With every retained percentage below 100, as every percentage stored by
      an unfinished update is, the integer quotient as written is always 0;
      the fraction lies strictly below the whole. */
  lemma IntegerProgressIsZero(m: map<U32, Entry>, now: int)
    requires Retained(m, now) != map[]
    requires forall k :: k in Retained(m, now) ==> 0 <= Retained(m, now)[k].percent < 100
    ensures SignalAsWritten(m, now) == Visible(0)
    ensures ProgressOf(m, now).Fraction?
    ensures 0 <= ProgressOf(m, now).total < ProgressOf(m, now).outOf
  {
    var kept := Retained(m, now);
    TotalBounds(kept, 0, 99);
    assert |kept| > 0 by { var k :| k in kept; assert k in kept.Keys; }
    assert m != map[] by { var k :| k in kept; assert k in m; }
    var total := Total(kept);
    var d := |kept| * 100;
    SmallQuotient(total, d);
  }

  /** With every percentage in [0, 100], the corrected signal is hidden or a
      fraction between 0 and 1. */
  lemma ProgressBounded(m: map<U32, Entry>, now: int)
    requires forall k :: k in m ==> 0 <= m[k].percent <= 100
    ensures ProgressOf(m, now).Fraction? ==>
      0 <= ProgressOf(m, now).total <= ProgressOf(m, now).outOf && ProgressOf(m, now).outOf > 0
  {
    var kept := Retained(m, now);
    TotalBounds(kept, 0, 100);
    if kept != map[] {
      var k :| k in kept;
      assert k in kept.Keys;
    }
  }

  // ---------------------------------------------------------------------------
  // Updates
  // ---------------------------------------------------------------------------

  /** qint64 division, which truncates toward zero: the remainder is zero or
      has the sign of the dividend, and is smaller than the divisor in size. */
  function TruncDiv(a: int, b: int): (q: int)
    requires b != 0
    ensures a >= 0 && b > 0 ==> q == a / b
    ensures var r := a - q * b;
      (r == 0 || (r < 0 <==> a < 0)) && (if r < 0 then -r else r) < (if b < 0 then -b else b)
  {
    var n := if a < 0 then -a else a;
    var d := if b < 0 then -b else b;
    if (a < 0) == (b < 0) then n / d else -(n / d)
  }

  /** The percentage updateProgress stores: value * 100 / max, truncated
      toward zero, and no value at all for a zero `max`, where the integer
      division of the source faults. */
  function StoredPercent(value: int, max: int): (r: Option<int>)
    ensures r.None? <==> max == 0
  {
    if max == 0 then None else Some(TruncDiv(value * 100, max))
  }

  /** An unfinished update, 0 <= value < max, stores a percentage in [0, 100). */
  lemma StoredPercentInRange(value: int, max: int)
    requires 0 <= value < max
    ensures StoredPercent(value, max).Some?
    ensures 0 <= StoredPercent(value, max).value < 100
  {
    var a := value * 100;
    var q := a / max;
    assert a == max * q + a % max;
  }

  /** The table after updateProgress's own change, before pruning: a finished
      task (value == max) is erased, any other is stored with the current
      time, replacing an earlier entry. There is no table when an unfinished
      update has a zero `max`: the division faults before anything changes. */
  function Updated(m: map<U32, Entry>, id: U32, value: int, max: int, now: int): (r: Option<map<U32, Entry>>)
    ensures r.None? <==> value != max && max == 0
    ensures r.Some? && value == max ==> id !in r.value
    ensures r.Some? && value != max ==> id in r.value && r.value[id] == Entry(now, StoredPercent(value, max).value)
    ensures r.Some? ==> forall k :: k != id ==> (k in r.value <==> k in m) && (k in r.value ==> r.value[k] == m[k])
  {
    if value == max then Some(m - {id})
    else match StoredPercent(value, max)
      case None => None
      case Some(p) => Some(m[id := Entry(now, p)])
  }

  /** An updated task survives the pruning of the same call with its new
      percentage, and every other task survives it exactly when it was fresh. */
  lemma UpdateSurvivesPruning(m: map<U32, Entry>, id: U32, value: int, max: int, now: int)
    requires value != max && max != 0
    ensures Updated(m, id, value, max, now).Some?
    ensures var r := Retained(Updated(m, id, value, max, now).value, now);
      && id in r && r[id].percent == StoredPercent(value, max).value
      && (forall k :: k != id ==> (k in r <==> k in m && Fresh(m[k], now)))
  {
    var u := Updated(m, id, value, max, now).value;
    assert Fresh(u[id], now);
  }

  /** The id the counter holds after one getId: one more, wrapping to 0
      after the largest quint32. */
  function NextId(id: U32): (n: U32)
    ensures id < 0xFFFF_FFFF ==> n == id + 1
    ensures id == 0xFFFF_FFFF ==> n == 0
  {
    (id + 1) % 0x1_0000_0000
  }

  /** The ids handed out by k calls starting from `first`. */
  function IdsFrom(first: U32, k: nat): seq<U32>
    decreases k
  {
    if k == 0 then [] else [first] + IdsFrom(NextId(first), k - 1)
  }

  /** Starting from 1, the first k ids are 1, 2, …, k as long as the counter
      does not wrap: distinct and strictly increasing. */
  lemma {:induction false} IdsIncrease(first: U32, k: nat)
    requires first + k <= 0x1_0000_0000
    ensures |IdsFrom(first, k)| == k
    ensures forall i :: 0 <= i < k ==> IdsFrom(first, k)[i] == first + i
    decreases k
  {
    if k > 0 {
      if k > 1 {
        IdsIncrease(NextId(first), k - 1);
      }
    }
  }

  // ---------------------------------------------------------------------------
  // The manager
  // ---------------------------------------------------------------------------

  /** The table while the pruning loop runs: the entries not yet visited
      and the fresh ones already visited. */
  function Pruning(m: map<U32, Entry>, rest: set<U32>, now: int): map<U32, Entry> {
    map k | k in m && (k in rest || Fresh(m[k], now)) :: m[k]
  }

  /** The entries the pruning loop has visited and kept. */
  function Kept(m: map<U32, Entry>, rest: set<U32>, now: int): map<U32, Entry> {
    map k | k in m && k !in rest && Fresh(m[k], now) :: m[k]
  }

  /** One step of the pruning loop: visiting a fresh entry keeps it and adds
      it to the kept entries, visiting a stale one erases it. */
  lemma PruneStep(m: map<U32, Entry>, rest: set<U32>, k: U32, now: int)
    requires rest <= m.Keys && k in rest
    ensures Fresh(m[k], now) ==> Pruning(m, rest - {k}, now) == Pruning(m, rest, now)
    ensures !Fresh(m[k], now) ==> Pruning(m, rest - {k}, now) == Pruning(m, rest, now) - {k}
    ensures !Fresh(m[k], now) ==> Kept(m, rest - {k}, now) == Kept(m, rest, now)
    ensures Fresh(m[k], now) ==>
      && |Kept(m, rest - {k}, now)| == |Kept(m, rest, now)| + 1
      && Total(Kept(m, rest - {k}, now)) == Total(Kept(m, rest, now)) + m[k].percent
  {
    var before := Kept(m, rest, now);
    var after := Kept(m, rest - {k}, now);
    if Fresh(m[k], now) {
      assert after.Keys == before.Keys + {k};
      assert after - {k} == before;
      TotalRemove(after, k);
    }
  }

  class TaskProgressManager {
    var percentages: map<U32, Entry>
    var nextId: U32
    var successful: bool

    /** The constructor: an empty table, ids from 1, and working only when
      the application has a desktop file name. */
    constructor (desktopFileName: string)
      ensures percentages == map[] && nextId == 1
      ensures successful <==> desktopFileName != []
    {
      percentages := map[];
      nextId := 1;
      successful := desktopFileName != [];
    }

    /** getId: the current counter, which is then advanced. */
    method GetId() returns (id: U32)
      modifies this
      ensures id == old(nextId) && nextId == NextId(old(nextId))
      ensures percentages == old(percentages) && successful == old(successful)
    {
      id := nextId;
      nextId := NextId(nextId);
    }

    /** The pruning loop of showProgress: erases the stale entries and sums
      the percentages and counts the entries it keeps. */
    method Prune(now: int) returns (total: int, count: nat)
      modifies this
      ensures percentages == Retained(old(percentages), now)
      ensures count == |percentages| && total == Total(percentages)
      ensures nextId == old(nextId) && successful == old(successful)
    {
      ghost var m := percentages;
      var rest := percentages.Keys;
      total := 0;
      count := 0;
      assert percentages == Pruning(m, rest, now);
      assert Kept(m, rest, now) == map[];
      while rest != {}
        invariant rest <= m.Keys
        invariant percentages == Pruning(m, rest, now)
        invariant count == |Kept(m, rest, now)| && total == Total(Kept(m, rest, now))
        invariant nextId == old(nextId) && successful == old(successful)
        decreases rest
      {
        var k :| k in rest;
        var entry := percentages[k];
        PruneStep(m, rest, k, now);
        if now - entry.time < STALE_AFTER {
          total := total + entry.percent;
          count := count + 1;
        } else {
          percentages := percentages - {k};
        }
        rest := rest - {k};
      }
      assert Kept(m, {}, now) == Retained(m, now);
      assert Pruning(m, {}, now) == Retained(m, now);
    }

    /** showProgress: prunes the table and reports the progress of what is
      left, hidden when nothing is. `sent` is what the code as written puts
      in the signal: not visible for a table empty before the pruning,
      otherwise the integer quotient, or a division by zero when the pruning
      left nothing. */
    method ShowProgress(now: int) returns (signal: Progress, sent: Signal)
      modifies this
      ensures percentages == Retained(old(percentages), now)
      ensures signal == ProgressOf(old(percentages), now)
      ensures sent == SignalAsWritten(old(percentages), now)
      ensures nextId == old(nextId) && successful == old(successful)
    {
      var wasEmpty := percentages == map[];
      var total, count := Prune(now);
      signal := ProgressFrom(total, count);
      if wasEmpty {
        sent := NotVisible;
      } else if count == 0 {
        sent := DivisionByZero;
      } else {
        sent := Visible(total / (count * 100));
      }
    }

    /** updateProgress: nothing when the manager is not working; otherwise
      the task's entry is erased (finished) or replaced, then the table is
      pruned and the progress reported. An unfinished update with a zero
      `max` divides by zero: the outcome says so and the table is as it was. */
    method UpdateProgress(id: U32, value: int, max: int, now: int) returns (outcome: CallOutcome)
      modifies this
      ensures !old(successful) ==> outcome == Ignored && percentages == old(percentages)
      ensures old(successful) && value != max && max == 0 ==>
        outcome == DividedByZero && percentages == old(percentages)
      ensures old(successful) && (value == max || max != 0) ==>
        var updated := Updated(old(percentages), id, value, max, now).value;
        outcome == Reported(ProgressOf(updated, now), SignalAsWritten(updated, now))
        && percentages == Retained(updated, now)
      ensures nextId == old(nextId) && successful == old(successful)
    {
      if !successful {
        return Ignored;
      }
      if value == max {
        if id in percentages {
          percentages := percentages - {id};
        }
      } else {
        var stored := StoredPercent(value, max);
        if stored.None? {
          return DividedByZero;
        }
        percentages := percentages[id := Entry(now, stored.value)];
      }
      assert percentages == Updated(old(percentages), id, value, max, now).value;
      var p, sent := ShowProgress(now);
      outcome := Reported(p, sent);
    }

    /** forgetMe: nothing when the manager is not working; otherwise the
      task's entry is erased if present, then the table is pruned and the
      progress reported. */
    method ForgetMe(id: U32, now: int) returns (outcome: CallOutcome)
      modifies this
      ensures !old(successful) ==> outcome == Ignored && percentages == old(percentages)
      ensures old(successful) ==>
        var left := old(percentages) - {id};
        outcome == Reported(ProgressOf(left, now), SignalAsWritten(left, now))
        && percentages == Retained(left, now)
      ensures nextId == old(nextId) && successful == old(successful)
    {
      if !successful {
        return Ignored;
      }
      if id in percentages {
        percentages := percentages - {id};
      }
      assert percentages == old(percentages) - {id};
      var p, sent := ShowProgress(now);
      outcome := Reported(p, sent);
    }
  }

  /** Finishing a task through updateProgress removes it exactly as forgetMe
      does. */
  lemma FinishedUpdateForgets(m: map<U32, Entry>, id: U32, value: int, now: int)
    ensures Updated(m, id, value, value, now) == Some(m - {id})
    ensures ProgressOf(Updated(m, id, value, value, now).value, now) == ProgressOf(m - {id}, now)
  {
  }

  /** The division by zero of showProgress, reached through the public calls:
      task 1 reports 50 % at second 0, and at second 20 forgetMe for task 2
      prunes the only, stale, entry. The signal as written divides by zero;
      the corrected progress is hidden. */
  method StaleTableFaults() returns (outcome: CallOutcome)
    ensures outcome == Reported(Hidden, DivisionByZero)
  {
    var manager := new TaskProgressManager("modorganizer2");
    var first := manager.UpdateProgress(1, 50, 100, 0);
    assert manager.percentages == map[1 := Entry(0, 50)] by {
      assert TruncDiv(5000, 100) == 50;
      assert Retained(map[1 := Entry(0, 50)], 0) == map[1 := Entry(0, 50)];
    }
    outcome := manager.ForgetMe(2, 20);
    var left := map[1 := Entry(0, 50)] - {2};
    assert left == map[1 := Entry(0, 50)];
    AllStaleDividesByZero(left, 20);
  }
}
