// Checkpoint sweeps (internal/checker/checker.go) and the rows they upsert
// (internal/store/checkpoint_runs.go). SweepModel folds single checks and relates them to
// the whole history, Sweeps is the sweep itself, SweepLoop the in-flight flag around it.

module SweepModel {
  import opened Wrappers

  datatype Status = Pass | Fail | Broken

  // Logical times.
  type Time = nat

  // One checkpoint's result in a sweep, and whether recording it failed.
  datatype Check = Check(id: string, status: Status, now: Time, recordFails: bool)

  datatype Row = Row(firstPassedAt: Option<Time>, lastStatus: Status, lastRunAt: Time)

  datatype Event = Event(id: string, status: Status, firstPassedAt: Option<Time>)

  type Rows = map<string, Row>

  // The sweep state, the stored rows and the events published so far.
  datatype Sweep = Sweep(last: map<string, Status>, firstPassed: map<string, Time>, rows: Rows, events: seq<Event>)

  function FirstOf(s: Sweep, id: string): Option<Time> {
    if id in s.firstPassed then Some(s.firstPassed[id]) else None
  }

  // COALESCE(checkpoint_runs.first_passed_at, excluded.first_passed_at), where only a pass
  // brings a time of its own.
  function Upserted(rows: Rows, id: string, status: Status, first: Option<Time>, now: Time): Rows {
    var offered := if status.Pass? then (if first.Some? then first else Some(now)) else None;
    var kept := if id in rows && rows[id].firstPassedAt.Some? then rows[id].firstPassedAt else offered;
    rows[id := Row(kept, status, now)]
  }

  function AfterCheck(s: Sweep, c: Check, realMode: bool): Sweep {
    var firstPassed := if c.status.Pass? && c.id !in s.firstPassed then s.firstPassed[c.id := c.now] else s.firstPassed;
    var first := if c.id in firstPassed then Some(firstPassed[c.id]) else None;
    Sweep(s.last[c.id := c.status],
          firstPassed,
          if c.recordFails then s.rows else Upserted(s.rows, c.id, c.status, first, c.now),
          if !realMode && (c.id !in s.last || s.last[c.id] != c.status) then s.events + [Event(c.id, c.status, first)] else s.events)
  }

  // The state after a whole history, from a new sweep state and the rows found.
  function AfterChecks(rows: Rows, h: seq<Check>, realMode: bool): Sweep {
    if h == [] then Sweep(map[], map[], rows, [])
    else AfterCheck(AfterChecks(rows, h[..|h| - 1], realMode), h[|h| - 1], realMode)
  }

  // ----- the history itself

  function StatusesOf(h: seq<Check>, id: string): seq<Status> {
    if h == [] then []
    else
      var before := StatusesOf(h[..|h| - 1], id);
      if h[|h| - 1].id == id then before + [h[|h| - 1].status] else before
  }

  // The time of the first passing check, the definition the stored times must meet.
  function FirstPass(h: seq<Check>, id: string): Option<Time> {
    if h == [] then None
    else if h[0].id == id && h[0].status.Pass? then Some(h[0].now)
    else FirstPass(h[1..], id)
  }

  // A history with consecutive repeats removed.
  function Changes(statuses: seq<Status>): seq<Status> {
    if statuses == [] then []
    else
      var n := |statuses| - 1;
      var before := Changes(statuses[..n]);
      if n > 0 && statuses[n - 1] == statuses[n] then before else before + [statuses[n]]
  }

  // The statuses published for a checkpoint, in order.
  function Published(events: seq<Event>, id: string): seq<Status> {
    if events == [] then []
    else
      var before := Published(events[..|events| - 1], id);
      if events[|events| - 1].id == id then before + [events[|events| - 1].status] else before
  }

  predicate RecordedPass(h: seq<Check>, id: string) {
    exists i :: 0 <= i < |h| && h[i].id == id && h[i].status.Pass? && !h[i].recordFails
  }

  lemma {:induction false} FirstPassNext(h: seq<Check>, c: Check, id: string)
    ensures FirstPass(h + [c], id)
         == if FirstPass(h, id).Some? then FirstPass(h, id) else if c.id == id && c.status.Pass? then Some(c.now) else None
  {
    if h == [] {
      assert [] + [c] == [c] && [c][1..] == [];
    } else {
      assert (h + [c])[1..] == h[1..] + [c];
      FirstPassNext(h[1..], c, id);
    }
  }

  // The first pass of a longer history is the same: it never changes.
  lemma {:induction false} FirstPassStays(h: seq<Check>, more: seq<Check>, id: string)
    requires FirstPass(h, id).Some?
    ensures FirstPass(h + more, id) == FirstPass(h, id)
  {
    if !(h[0].id == id && h[0].status.Pass?) {
      assert (h + more)[1..] == h[1..] + more;
      FirstPassStays(h[1..], more, id);
    }
  }

  // No removed repeat is missed: neighbours in what is left differ.
  lemma {:induction false} ChangesDiffer(statuses: seq<Status>)
    ensures statuses != [] ==> Changes(statuses) != [] && Changes(statuses)[|Changes(statuses)| - 1] == statuses[|statuses| - 1]
    ensures forall i | 0 <= i < |Changes(statuses)| - 1 :: Changes(statuses)[i] != Changes(statuses)[i + 1]
  {
    if statuses != [] {
      ChangesDiffer(statuses[..|statuses| - 1]);
    }
  }

  // ----- state and history

  predicate StateOk(s: Sweep, h: seq<Check>, id: string) {
    && FirstOf(s, id) == FirstPass(h, id)
    && var own := StatusesOf(h, id);
       (id in s.last <==> own != []) && (own != [] ==> s.last[id] == own[|own| - 1])
  }

  lemma {:induction false} StateFollows(rows: Rows, h: seq<Check>, realMode: bool, id: string)
    ensures StateOk(AfterChecks(rows, h, realMode), h, id)
  {
    if h != [] {
      var n := |h| - 1;
      StateFollows(rows, h[..n], realMode, id);
      FirstPassNext(h[..n], h[n], id);
      assert h == h[..n] + [h[n]];
    }
  }

  // Outside real mode the published events of a checkpoint are exactly its status history
  // with consecutive repeats removed; in real mode there are none.
  lemma {:induction false} EventsAreChanges(rows: Rows, h: seq<Check>, realMode: bool, id: string)
    ensures var events := AfterChecks(rows, h, realMode).events;
            if realMode then events == [] else Published(events, id) == Changes(StatusesOf(h, id))
  {
    if h != [] {
      var n := |h| - 1;
      EventsAreChanges(rows, h[..n], realMode, id);
      if !realMode {
        EventStep(AfterChecks(rows, h[..n], realMode), h, id, rows);
      }
    }
  }

  lemma PublishedNext(events: seq<Event>, e: Event, id: string)
    ensures Published(events + [e], id) == if e.id == id then Published(events, id) + [e.status] else Published(events, id)
  {
    assert (events + [e])[..|events|] == events;
  }

  lemma ChangesNext(statuses: seq<Status>, status: Status)
    ensures Changes(statuses + [status])
         == if statuses != [] && statuses[|statuses| - 1] == status then Changes(statuses) else Changes(statuses) + [status]
  {
    assert (statuses + [status])[..|statuses|] == statuses;
  }

  lemma EventStep(s: Sweep, h: seq<Check>, id: string, rows: Rows)
    requires h != [] && s == AfterChecks(rows, h[..|h| - 1], false)
    requires Published(s.events, id) == Changes(StatusesOf(h[..|h| - 1], id))
    ensures Published(AfterCheck(s, h[|h| - 1], false).events, id) == Changes(StatusesOf(h, id))
  {
    var n, c := |h| - 1, h[|h| - 1];
    StateFollows(rows, h[..n], false, id);
    EventNext(s, c, StatusesOf(h[..n], id), id);
  }

  lemma EventNext(s: Sweep, c: Check, own: seq<Status>, id: string)
    requires (id in s.last <==> own != []) && (own != [] ==> s.last[id] == own[|own| - 1])
    requires Published(s.events, id) == Changes(own)
    ensures Published(AfterCheck(s, c, false).events, id) == Changes(if c.id == id then own + [c.status] else own)
  {
    var s' := AfterCheck(s, c, false);
    if s'.events != s.events { PublishedNext(s.events, s'.events[|s.events|], id); }
    ChangesNext(own, c.status);
  }

  // Each event carries the first-pass time of the history up to it.
  lemma {:induction false} EventTimes(rows: Rows, h: seq<Check>, realMode: bool, k: nat) returns (n: nat)
    requires k < |AfterChecks(rows, h, realMode).events|
    ensures n < |h|
    ensures AfterChecks(rows, h, realMode).events[k] == Event(h[n].id, h[n].status, FirstPass(h[..n + 1], h[n].id))
  {
    var m := |h| - 1;
    var before := AfterChecks(rows, h[..m], realMode);
    if k < |before.events| {
      n := EventTimes(rows, h[..m], realMode, k);
      assert h[..m][..n + 1] == h[..n + 1] && h[..m][n] == h[n];
    } else {
      n := m;
      StateFollows(rows, h, realMode, h[m].id);
      assert h[..m + 1] == h;
    }
  }

  // The row of a checkpoint: the first-pass time it already had, or else the time of the
  // true first pass as soon as any pass was recorded, even if recording that first pass
  // itself failed.
  predicate RowOk(rows: Rows, s: Sweep, h: seq<Check>, id: string) {
    var stored := if id in s.rows then s.rows[id].firstPassedAt else None;
    if id in rows && rows[id].firstPassedAt.Some? then stored == rows[id].firstPassedAt
    else if RecordedPass(h, id) then stored == FirstPass(h, id) && stored.Some?
    else stored == None
  }

  lemma {:induction false} RowsAreOk(rows: Rows, h: seq<Check>, realMode: bool, id: string)
    ensures RowOk(rows, AfterChecks(rows, h, realMode), h, id)
  {
    if h != [] {
      var n := |h| - 1;
      RowsAreOk(rows, h[..n], realMode, id);
      StateFollows(rows, h[..n], realMode, id);
      FirstPassNext(h[..n], h[n], id);
      RecordedNext(h, id);
      if RecordedPass(h[..n], id) { RecordedPassed(h[..n], id); }
      assert h == h[..n] + [h[n]];
    }
  }

  lemma RecordedNext(h: seq<Check>, id: string)
    requires h != []
    ensures var c := h[|h| - 1];
            RecordedPass(h, id) <==> RecordedPass(h[..|h| - 1], id) || (c.id == id && c.status.Pass? && !c.recordFails)
  {
    var n := |h| - 1;
    if RecordedPass(h, id) {
      var i :| 0 <= i < |h| && h[i].id == id && h[i].status.Pass? && !h[i].recordFails;
      if i < n { assert h[..n][i] == h[i]; }
    }
    if RecordedPass(h[..n], id) {
      var i :| 0 <= i < n && h[..n][i].id == id && h[..n][i].status.Pass? && !h[..n][i].recordFails;
      assert h[i] == h[..n][i];
    }
  }

  lemma {:induction false} RecordedPassed(h: seq<Check>, id: string)
    requires RecordedPass(h, id)
    ensures FirstPass(h, id).Some?
  {
    var i :| 0 <= i < |h| && h[i].id == id && h[i].status.Pass? && !h[i].recordFails;
    PassIsFound(h, id, i);
  }

  lemma {:induction false} PassIsFound(h: seq<Check>, id: string, i: nat)
    requires i < |h| && h[i].id == id && h[i].status.Pass?
    ensures FirstPass(h, id).Some?
  {
    if i > 0 {
      PassIsFound(h[1..], id, i - 1);
    }
  }

  // The last check of a checkpoint that was recorded.
  function LastRecorded(h: seq<Check>, id: string): Option<Check> {
    if h == [] then None
    else if h[|h| - 1].id == id && !h[|h| - 1].recordFails then Some(h[|h| - 1])
    else LastRecorded(h[..|h| - 1], id)
  }

  // A row carries the status and the time of the last check recorded, and nobody else's.
  lemma {:induction false} RowsAreLast(rows: Rows, h: seq<Check>, realMode: bool, id: string)
    ensures var s, last := AfterChecks(rows, h, realMode), LastRecorded(h, id);
            && (id in s.rows <==> id in rows || last.Some?)
            && (last.Some? ==> s.rows[id].lastStatus == last.value.status && s.rows[id].lastRunAt == last.value.now)
            && (last.None? && id in rows ==> s.rows[id] == rows[id])
  {
    if h != [] {
      RowsAreLast(rows, h[..|h| - 1], realMode, id);
    }
  }

  // With every record succeeding, the stored time is that of the first sweep in which the
  // checkpoint passed, and no longer history changes it.
  lemma FirstPassIsStored(h: seq<Check>, more: seq<Check>, realMode: bool, id: string)
    requires forall c | c in h + more :: !c.recordFails
    requires FirstPass(h, id).Some?
    ensures var before, after := AfterChecks(map[], h, realMode).rows, AfterChecks(map[], h + more, realMode).rows;
            id in before && id in after && before[id].firstPassedAt == after[id].firstPassedAt == FirstPass(h, id)
  {
    FirstPassStays(h, more, id);
    FirstIsRecorded(h, id);
    var i :| 0 <= i < |h| && h[i].id == id && h[i].status.Pass?;
    assert h[i] in h + more && (h + more)[i] == h[i];
    RowsAreOk(map[], h, realMode, id);
    RowsAreOk(map[], h + more, realMode, id);
  }

  lemma {:induction false} FirstIsRecorded(h: seq<Check>, id: string)
    requires FirstPass(h, id).Some?
    ensures exists i :: 0 <= i < |h| && h[i].id == id && h[i].status.Pass?
  {
    if !(h[0].id == id && h[0].status.Pass?) {
      FirstIsRecorded(h[1..], id);
      var i :| 0 <= i < |h[1..]| && h[1..][i].id == id && h[1..][i].status.Pass?;
      assert h[i + 1] == h[1..][i];
    }
  }
}

module Sweeps {
  import opened Lists
  import opened Wrappers
  import opened SweepModel

  // What one sweep found: a result for every checkpoint, and which records fail.
  function ChecksOf(ids: seq<string>, results: seq<Status>, now: Time, fails: seq<bool>): seq<Check>
    requires |results| == |ids| == |fails|
  {
    seq(|ids|, i requires 0 <= i < |ids| => Check(ids[i], results[i], now, fails[i]))
  }

  function AfterAll(s: Sweep, checks: seq<Check>, realMode: bool): Sweep {
    if checks == [] then s else AfterCheck(AfterAll(s, checks[..|checks| - 1], realMode), checks[|checks| - 1], realMode)
  }

  // The last result of every checkpoint of the sweep.
  function Statuses(checks: seq<Check>): map<string, Status> {
    if checks == [] then map[]
    else Statuses(checks[..|checks| - 1])[checks[|checks| - 1].id := checks[|checks| - 1].status]
  }

  class SweepState {
    var last: map<string, Status>
    var firstPassed: map<string, Time>
    // The store's rows and the published events, as seen from here.
    var rows: Rows
    var events: seq<Event>

    ghost function View(): Sweep
      reads this
    {
      Sweep(last, firstPassed, rows, events)
    }

    constructor (rows: Rows)
      ensures View() == AfterChecks(rows, [], false)
    {
      last, firstPassed, this.rows, events := map[], map[], rows, [];
    }

    method TakeIn(id: string, status: Status, now: Time, fails: bool, realMode: bool)
      modifies this
      ensures View() == AfterCheck(old(View()), Check(id, status, now, fails), realMode)
    {
      if status.Pass? && id !in firstPassed {
        firstPassed := firstPassed[id := now];
      }
      var first := if id in firstPassed then Some(firstPassed[id]) else None;
      if !fails {
        rows := Upserted(rows, id, status, first, now);
      }
      var changed := if id in last then last[id] != status else true;
      last := last[id := status];
      if !realMode && changed {
        events := events + [Event(id, status, first)];
      }
    }

    // A cancelled sweep changes nothing; any other takes in every result in order.
    method Run(ids: seq<string>, results: seq<Status>, now: Time, fails: seq<bool>, cancelled: bool, realMode: bool)
      returns (statuses: Option<map<string, Status>>, passed: bool)
      requires |results| == |ids| == |fails|
      modifies this
      ensures cancelled ==> View() == old(View()) && statuses == None && !passed
      ensures !cancelled ==>
        var checks := ChecksOf(ids, results, now, fails);
        && View() == AfterAll(old(View()), checks, realMode)
        && statuses == Some(Statuses(checks))
        && (passed <==> forall i | 0 <= i < |results| :: results[i].Pass?)
    {
      if cancelled { return None, false; }
      var found: map<string, Status> := map[];
      passed := true;
      ghost var checks := ChecksOf(ids, results, now, fails);
      for i := 0 to |ids|
        invariant View() == AfterAll(old(View()), checks[..i], realMode) && found == Statuses(checks[..i])
        invariant passed <==> forall j | 0 <= j < i :: results[j].Pass?
      {
        assert checks[..i + 1][..i] == checks[..i] && checks[i] == Check(ids[i], results[i], now, fails[i]);
        found := found[ids[i] := results[i]];
        if !results[i].Pass? {
          passed := false;
        }
        TakeIn(ids[i], results[i], now, fails[i], realMode);
      }
      assert checks[..|ids|] == checks;
      return Some(found), passed;
    }
  }

  // Sweeps one after the other are one history: what a state holds after any number of
  // them is what SweepModel proves of the concatenated checks.
  lemma {:induction false} SweepsAreOneHistory(rows: Rows, h: seq<Check>, checks: seq<Check>, realMode: bool)
    ensures AfterAll(AfterChecks(rows, h, realMode), checks, realMode) == AfterChecks(rows, h + checks, realMode)
  {
    if checks == [] {
      assert h + checks == h;
    } else {
      var n := |checks| - 1;
      SweepsAreOneHistory(rows, h, checks[..n], realMode);
      ChecksNext(rows, h + checks[..n], checks[n], realMode);
      AppendLast(h, checks);
    }
  }

  lemma ChecksNext(rows: Rows, h: seq<Check>, c: Check, realMode: bool)
    ensures AfterChecks(rows, h + [c], realMode) == AfterCheck(AfterChecks(rows, h, realMode), c, realMode)
  {
    assert (h + [c])[..|h|] == h;
  }

  // The answer of a sweep holds the checkpoints swept and no others, each with the status
  // the state keeps for it.
  lemma {:induction false} StatusesAreLast(s: Sweep, checks: seq<Check>, realMode: bool)
    ensures forall id :: id in Statuses(checks) <==> exists i :: 0 <= i < |checks| && checks[i].id == id
    ensures forall id | id in Statuses(checks) ::
              id in AfterAll(s, checks, realMode).last && AfterAll(s, checks, realMode).last[id] == Statuses(checks)[id]
  {
    if checks != [] {
      StatusesAreLast(s, checks[..|checks| - 1], realMode);
    }
  }
}

// The ticker loop of a checker: sweeps run beside it, one at a time.
module SweepLoop {

  // `sweeping` is the flag, `running` the sweeps under way, `done` the channel of capacity
  // one, `finished` the calls that end the attempt, `stopped` the loop's return.
  datatype Checker = Checker(sweeping: bool, running: nat, done: seq<bool>, finished: nat, stopped: bool)

  const START := Checker(false, 0, [], 0, false)
  const DONE_CAPACITY := 1

  datatype Event = Tick | SweepEnds(passed: bool) | Receive(cancelled: bool) | Cancelled

  predicate Can(c: Checker, e: Event) {
    match e
    case Tick => !c.stopped
    case SweepEnds(_) => c.running > 0
    case Receive(_) => !c.stopped && c.done != []
    case Cancelled => !c.stopped
  }

  function AfterEvent(c: Checker, e: Event, realMode: bool): Checker
    requires Can(c, e)
  {
    match e
    case Tick => if c.sweeping then c else c.(sweeping := true, running := c.running + 1)
    case SweepEnds(passed) => c.(running := c.running - 1, done := c.done + [passed])
    case Receive(cancelled) =>
      var next := c.(done := c.done[1..]);
      if cancelled then next.(stopped := true)
      else if c.done[0] && !realMode then next.(sweeping := false, finished := c.finished + 1, stopped := true)
      else next.(sweeping := false)
    case Cancelled => c.(stopped := true)
  }

  ghost predicate IsRun(run: seq<Checker>, realMode: bool) {
    && run != [] && run[0] == START
    && forall i | 0 <= i < |run| - 1 :: IsStep(run[i], run[i + 1], realMode)
  }

  ghost predicate IsStep(c: Checker, c': Checker, realMode: bool) {
    exists e :: Can(c, e) && c' == AfterEvent(c, e, realMode)
  }

  predicate CheckerOk(c: Checker, realMode: bool) {
    && c.running + |c.done| <= 1
    && (!c.stopped ==> (c.sweeping <==> c.running + |c.done| == 1))
    && (c.finished > 0 ==> c.finished == 1 && c.stopped && !realMode && c.running == 0 && c.done == [])
  }

  lemma EventKeeps(c: Checker, e: Event, realMode: bool)
    requires CheckerOk(c, realMode) && Can(c, e)
    ensures CheckerOk(AfterEvent(c, e, realMode), realMode)
  {
  }

  // At most one sweep is under way; one that ends finds room in the channel, so it never
  // blocks; and an attempt is finished at most once, never in real mode.
  lemma {:induction false} OneSweepAtATime(run: seq<Checker>, realMode: bool, i: nat)
    requires IsRun(run, realMode) && i < |run|
    ensures CheckerOk(run[i], realMode)
    ensures run[i].running > 0 ==> run[i].running == 1 && |run[i].done| < DONE_CAPACITY
    ensures run[i].finished <= 1 && (realMode ==> run[i].finished == 0)
  {
    if i > 0 {
      OneSweepAtATime(run, realMode, i - 1);
      assert IsStep(run[i - 1], run[i], realMode);
      var e :| Can(run[i - 1], e) && run[i] == AfterEvent(run[i - 1], e, realMode);
      EventKeeps(run[i - 1], e, realMode);
    }
  }

  // A tick always finds or leaves a sweep under way, and the loop waits for no other.
  lemma TickSweeps(run: seq<Checker>, realMode: bool, i: nat)
    requires IsRun(run, realMode) && i < |run| && Can(run[i], Tick)
    ensures var c, c' := run[i], AfterEvent(run[i], Tick, realMode);
            && c'.running + |c'.done| == 1 && c'.done == c.done && c'.finished == c.finished && !c'.stopped
            && (c'.running > c.running <==> c.running + |c.done| == 0)
  {
    OneSweepAtATime(run, realMode, i);
  }

  // The loop that learns of a sweep finishes the attempt when every checkpoint passed,
  // outside real mode; otherwise it goes on, and the next tick sweeps again.
  lemma ResultDecides(run: seq<Checker>, realMode: bool, i: nat)
    requires IsRun(run, realMode) && i < |run| && Can(run[i], Receive(false))
    ensures var c, c' := run[i], AfterEvent(run[i], Receive(false), realMode);
            if c.done[0] && !realMode then c'.finished == 1 && c'.stopped
            else c'.finished == 0 && !c'.stopped && Can(c', Tick) && AfterEvent(c', Tick, realMode).running == 1
  {
    OneSweepAtATime(run, realMode, i);
  }

  ghost predicate PassedAt(run: seq<Checker>, realMode: bool, k: nat) {
    k + 1 < |run| && run[k].running > 0 && run[k + 1] == AfterEvent(run[k], SweepEnds(true), realMode)
  }

  // An attempt is finished only after a sweep in which everything passed.
  lemma {:induction false} FinishedHasPassed(run: seq<Checker>, realMode: bool, i: nat) returns (k: nat)
    requires IsRun(run, realMode) && i < |run| && (run[i].finished > 0 || true in run[i].done)
    ensures k < i && PassedAt(run, realMode, k)
  {
    assert i > 0;
    assert IsStep(run[i - 1], run[i], realMode);
    var e :| Can(run[i - 1], e) && run[i] == AfterEvent(run[i - 1], e, realMode);
    if run[i - 1].finished > 0 || true in run[i - 1].done {
      k := FinishedHasPassed(run, realMode, i - 1);
    } else {
      k := i - 1;
    }
  }
}
