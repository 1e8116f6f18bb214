// Idle expiry (internal/attempt/service.go): a timer is armed while nobody watches an
// attempt, and a timer that fires expires the attempt only if it is still the armed one.
// Each armed timer is known by a number of its own, as it is by its channel in the code.

module IdleModel {
  import opened Wrappers

  datatype Tracker = Tracker(tracked: bool, conns: nat, idle: Option<nat>, armings: nat)

  const UNTRACKED := Tracker(false, 0, None, 0)

  datatype Event = Track | Connected | Disconnected | Untrack

  function AfterArm(t: Tracker): Tracker {
    if t.idle.Some? then t else t.(idle := Some(t.armings), armings := t.armings + 1)
  }

  function After(t: Tracker, e: Event): Tracker {
    match e
    case Track => if t.tracked then t else AfterArm(t.(tracked := true, conns := 0, idle := None))
    case Connected => if t.tracked then t.(conns := t.conns + 1, idle := None) else t
    case Disconnected =>
      if !t.tracked then t
      else
        var t' := t.(conns := if t.conns > 0 then t.conns - 1 else 0);
        if t'.conns == 0 then AfterArm(t') else t'
    case Untrack => t.(tracked := false, idle := None)
  }

  function Run(events: seq<Event>): Tracker {
    if events == [] then UNTRACKED else After(Run(events[..|events| - 1]), events[|events| - 1])
  }

  // The check a timer makes when it fires.
  predicate Armed(t: Tracker, timer: nat) {
    t.tracked && t.idle == Some(timer)
  }

  // Connections open after the events, counted from the last time tracking began.
  function Open(events: seq<Event>): nat {
    if events == [] then 0
    else
      var before := events[..|events| - 1];
      match events[|events| - 1]
      case Connected => if Watched(before) then Open(before) + 1 else 0
      case Disconnected => if Open(before) > 0 then Open(before) - 1 else 0
      case Track => if Watched(before) then Open(before) else 0
      case Untrack => 0
  }

  // Tracking is on: begun, and not ended since.
  predicate Watched(events: seq<Event>) {
    events != [] &&
    match events[|events| - 1]
    case Track => true
    case Untrack => false
    case _ => Watched(events[..|events| - 1])
  }

  // Nobody connected and tracking did not end after the k-th event.
  ghost predicate QuietSince(events: seq<Event>, k: nat) {
    forall i | k < i < |events| :: !events[i].Connected? && !events[i].Untrack?
  }

  // The k-th event armed the timer.
  ghost predicate ArmedBy(events: seq<Event>, k: nat, timer: nat) {
    k < |events| && !Armed(Run(events[..k]), timer) && Armed(Run(events[..k + 1]), timer)
  }

  lemma {:induction false} TrackerOk(events: seq<Event>)
    ensures var t := Run(events);
      && t.tracked == Watched(events)
      && (t.tracked ==> t.conns == Open(events) && (t.idle.Some? <==> t.conns == 0))
      && (!t.tracked ==> Open(events) == 0 && t.idle.None?)
      && (t.idle.Some? ==> t.idle.value < t.armings)
  {
    if events != [] {
      TrackerOk(events[..|events| - 1]);
    }
  }

  // A timer that fires while it is armed fires for an attempt nobody watches, and nobody
  // connected since the event that armed it; a timer superseded in the meantime does
  // nothing.
  lemma {:induction false} FiringTimerIsIdle(events: seq<Event>, timer: nat) returns (k: nat)
    requires Armed(Run(events), timer)
    ensures Watched(events) && Open(events) == 0
    ensures ArmedBy(events, k, timer) && QuietSince(events, k)
    decreases |events|
  {
    TrackerOk(events);
    var before := events[..|events| - 1];
    TrackerOk(before);
    if Armed(Run(before), timer) {
      k := FiringTimerIsIdle(before, timer);
      assert before[..k] == events[..k] && before[..k + 1] == events[..k + 1];
    } else {
      k := |events| - 1;
      assert events[..k + 1] == events;
    }
  }

  // Conversely an unwatched attempt always has an armed timer.
  lemma IdleIsArmed(events: seq<Event>)
    requires Watched(events) && Open(events) == 0
    ensures exists timer :: Armed(Run(events), timer)
  {
    TrackerOk(events);
    assert Armed(Run(events), Run(events).idle.value);
  }
}

module IdleTracker {
  import opened Wrappers
  import opened IdleModel

  class AttemptTracker {
    var tracked: bool
    var conns: nat
    var idle: Option<nat>
    var armings: nat

    function View(): Tracker
      reads this
    {
      Tracker(tracked, conns, idle, armings)
    }

    constructor ()
      ensures View() == UNTRACKED
    {
      tracked, conns, idle, armings := false, 0, None, 0;
    }

    method Arm()
      modifies this`idle, this`armings
      ensures View() == AfterArm(old(View()))
    {
      if idle.None? {
        idle := Some(armings);
        armings := armings + 1;
      }
    }

    method Track()
      modifies this
      ensures View() == After(old(View()), Event.Track)
    {
      if !tracked {
        tracked, conns, idle := true, 0, None;
        Arm();
      }
    }

    method Untrack()
      modifies this`tracked, this`idle
      ensures View() == After(old(View()), Event.Untrack)
    {
      tracked, idle := false, None;
    }

    method Connected()
      modifies this`conns, this`idle
      ensures View() == After(old(View()), Event.Connected)
    {
      if tracked {
        conns := conns + 1;
        idle := None;
      }
    }

    method Disconnected()
      modifies this`conns, this`idle, this`armings
      ensures View() == After(old(View()), Event.Disconnected)
    {
      if !tracked {
        return;
      }
      if conns > 0 {
        conns := conns - 1;
      }
      if conns == 0 {
        Arm();
      }
    }
  }
}
