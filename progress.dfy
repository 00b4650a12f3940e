/** server/lib/reanalyze-progress.js: the shared progress record of a re-analysis run,
    a four-state machine whose fields `start`, `update`, `complete` and `fail`
    overwrite. `Date.now()` is the `now` parameter. */
module Progress {
  import opened Wrappers
  import opened JsValues
  import opened EngineStats

  datatype Status = Idle | Running | Done | Failed

  const StartingMessage: string := "Starting re-analysis..."
  const CompletedMessage: string := "Re-analysis completed."
  const FailedMessage: string := "Re-analysis failed."
  const DefaultErrorText: string := "Failed to re-run analysis."

  /** `Math.round(x)`, that is `floor(x + 1/2)`, of `x = processed / total * 100`,
      computed over the integers: `floor((200 * processed + total) / (2 * total))`. */
  function RoundPercent(processed: int, total: int): int
    requires total != 0
  {
    if total > 0 then (200 * processed + total) / (2 * total)
    else (-(200 * processed + total)) / (-2 * total)
  }

  /** The rounded value is the integer nearest to `100 * processed / total`, halves
      rounding up: `r - 1/2 <= 100 * processed / total < r + 1/2`. */
  lemma RoundPercentNearest(processed: int, total: int)
    requires total != 0
    ensures var r := RoundPercent(processed, total);
      if total > 0 then total * (2 * r - 1) <= 200 * processed < total * (2 * r + 1)
      else total * (2 * r + 1) < 200 * processed <= total * (2 * r - 1)
  {
    var r := RoundPercent(processed, total);
    if total > 0 {
      var a := 200 * processed + total;
      var b := 2 * total;
      assert a == b * r + a % b;
    } else {
      var a := -(200 * processed + total);
      var b := -2 * total;
      assert a == b * r + a % b;
    }
  }

  function Clamp(lo: int, hi: int, x: int): int {
    if x < lo then lo else if x > hi then hi else x
  }

  /** percentFrom. */
  function PercentFrom(total: int, processed: int, status: Status): (r: int)
    ensures 0 <= r <= 100
    ensures status == Done ==> r == 100
    ensures status != Done && total == 0 ==> r == 0
  {
    if status == Done then 100
    else if total == 0 then 0
    else Clamp(0, 100, RoundPercent(processed, total))
  }

  lemma DivUnique(a: int, b: int, q: int, r: int)
    requires b > 0 && 0 <= r < b && a == b * q + r
    ensures a / b == q
  {
    var q0, r0 := a / b, a % b;
    assert a == b * q0 + r0;
    if q0 < q {
      MulMonotone(b, q0 + 1, q);
    } else if q0 > q {
      MulMonotone(b, q + 1, q0);
    }
  }

  lemma MulMonotone(b: int, x: int, y: int)
    requires b >= 0 && x <= y
    ensures b * x <= b * y
  {
  }

  lemma DivMonotone(a: int, c: int, b: int)
    requires b > 0 && a <= c
    ensures a / b <= c / b
  {
    var qa, qc := a / b, c / b;
    assert a == b * qa + a % b;
    assert c == b * qc + c % b;
    if qa > qc {
      MulMonotone(b, qc + 1, qa);
    }
  }

  /** No work done is 0 percent. */
  lemma RoundPercentZero(total: int)
    requires total != 0
    ensures RoundPercent(0, total) == 0
  {
    if total > 0 {
      DivUnique(total, 2 * total, 0, total);
    } else {
      DivUnique(-total, -2 * total, 0, -total);
    }
  }

  /** Within range the clamp never bites: the percent is the rounded ratio itself, it
      grows with `processed`, and it runs from 0 to 100. */
  lemma PercentInRange(total: int, p: int, q: int, status: Status)
    requires status != Done && 0 <= p <= q <= total && total > 0
    ensures PercentFrom(total, p, status) == RoundPercent(p, total)
    ensures PercentFrom(total, p, status) <= PercentFrom(total, q, status)
    ensures PercentFrom(total, 0, status) == 0 && PercentFrom(total, total, status) == 100
  {
    RoundPercentZero(total);
    DivUnique(200 * total + total, 2 * total, 100, total);
    DivMonotone(total, 200 * p + total, 2 * total);
    DivMonotone(200 * p + total, 200 * q + total, 2 * total);
    DivMonotone(200 * q + total, 200 * total + total, 2 * total);
  }

  /** What getReanalyzeProgress returns: a copy of the record. */
  datatype Snapshot = Snapshot(
    status: Status, active: bool, total: int, processed: int, percent: int,
    message: string, error: Option<string>, startedAt: Option<int>, finishedAt: Option<int>,
    stats: Option<RerunStats>)

  class ProgressTracker {
    var status: Status
    var active: bool
    var total: int
    var processed: int
    var percent: int
    var message: string
    var error: Option<string>
    var startedAt: Option<int>
    var finishedAt: Option<int>
    /** Absent until the first `complete`, and never cleared by `start`. */
    var stats: Option<RerunStats>

    /** The record's consistency: the percent always agrees with the counters and the
        status, the run is active exactly while running, an error is present exactly
        after a failure, and a non-negative total bounds the processed count. */
    predicate Valid()
      reads this
    {
      && percent == PercentFrom(total, processed, status)
      && (active <==> status == Running)
      && (error.Some? <==> status == Failed)
      && (error.Some? ==> error.value != "")
      && (total >= 0 ==> 0 <= processed <= total)
      && (status == Running ==> startedAt.Some? && finishedAt.None?)
      && (status == Done || status == Failed ==> finishedAt.Some?)
    }

    /** The initial state. */
    constructor ()
      ensures Valid()
      ensures status == Idle && !active && total == 0 && processed == 0 && percent == 0
      ensures message == "" && error == None && startedAt == None && finishedAt == None && stats == None
    {
      status := Idle;
      active := false;
      total := 0;
      processed := 0;
      percent := 0;
      message := "";
      error := None;
      startedAt := None;
      finishedAt := None;
      stats := None;
    }

    /** startReanalyzeProgress, for a numeric total (`Number(total) || 0` is the total). */
    method Start(newTotal: int, now: int)
      modifies this
      ensures Valid()
      ensures status == Running && active && total == newTotal && processed == 0 && percent == 0
      ensures message == StartingMessage && error == None
      ensures startedAt == Some(now) && finishedAt == None
      ensures stats == old(stats)
    {
      status := Running;
      active := true;
      total := newTotal;
      processed := 0;
      percent := 0;
      message := StartingMessage;
      error := None;
      startedAt := Some(now);
      finishedAt := None;
      if total != 0 {
        RoundPercentZero(total);
      }
    }

    /** updateReanalyzeProgress: `processed` is clamped into `[0, total]`. */
    method Update(newProcessed: int, newMessage: string)
      requires Valid()
      modifies this
      ensures Valid()
      ensures old(total) >= 0 ==> processed == Clamp(0, old(total), newProcessed)
      ensures old(total) < 0 ==> processed == old(total)
      ensures percent == PercentFrom(old(total), processed, old(status))
      ensures message == newMessage
      ensures status == old(status) && active == old(active) && total == old(total) && error == old(error)
      ensures startedAt == old(startedAt) && finishedAt == old(finishedAt) && stats == old(stats)
    {
      var atLeastZero := if newProcessed > 0 then newProcessed else 0;
      processed := if total < atLeastZero then total else atLeastZero;
      percent := PercentFrom(total, processed, status);
      message := newMessage;
    }

    /** completeReanalyzeProgress: `stats || null` is stored. */
    method Complete(runStats: Option<RerunStats>, now: int)
      requires Valid()
      modifies this
      ensures Valid()
      ensures status == Done && !active && processed == total && percent == 100
      ensures message == CompletedMessage && error == None && finishedAt == Some(now)
      ensures stats == runStats
      ensures total == old(total) && startedAt == old(startedAt)
    {
      status := Done;
      active := false;
      processed := total;
      percent := 100;
      message := CompletedMessage;
      error := None;
      finishedAt := Some(now);
      stats := runStats;
    }

    /** failReanalyzeProgress: the error's message when truthy, else a default text. */
    method Fail(errorMessage: Option<string>, now: int)
      requires Valid()
      modifies this
      ensures Valid()
      ensures status == Failed && !active && percent == PercentFrom(total, processed, Failed)
      ensures message == FailedMessage && finishedAt == Some(now)
      ensures error == Some(if Truthy(errorMessage) then errorMessage.value else DefaultErrorText)
      ensures total == old(total) && processed == old(processed)
      ensures startedAt == old(startedAt) && stats == old(stats)
    {
      status := Failed;
      active := false;
      percent := PercentFrom(total, processed, status);
      message := FailedMessage;
      error := Some(OrDefault(errorMessage, DefaultErrorText));
      finishedAt := Some(now);
    }

    /** getReanalyzeProgress: a copy; being a value, it cannot alias the record. */
    function Get(): (s: Snapshot)
      reads this
      ensures s.status == status && s.active == active && s.total == total
      ensures s.processed == processed && s.percent == percent && s.message == message
      ensures s.error == error && s.startedAt == startedAt && s.finishedAt == finishedAt && s.stats == stats
    {
      Snapshot(status, active, total, processed, percent, message, error, startedAt, finishedAt, stats)
    }
  }
}
