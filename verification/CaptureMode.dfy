/** The capture mode and the handlers that change it, each taken as one step. */
module CaptureMode {

  datatype Mode = Idle | Typing | Query

  datatype Event = TypingEvent(on: bool) | BeginEvent | EndEvent

  /** What a typing notification will store after it loaded `mode`, or nothing. */
  datatype Store = NoStore | Store(mode: Mode)

  function TypingStore(loaded: Mode, on: bool): Store {
    if on then if loaded != Query then Store(Typing) else NoStore
    else if loaded == Typing then Store(Idle) else NoStore
  }

  function OnTyping(mode: Mode, on: bool): Mode {
    match TypingStore(mode, on)
    case NoStore => mode
    case Store(m) => m
  }

  function Handle(mode: Mode, e: Event): Mode {
    match e
    case TypingEvent(on) => OnTyping(mode, on)
    case BeginEvent => Query
    case EndEvent => Idle
  }

  function ModeAfter(events: seq<Event>): Mode {
    if events == [] then Idle else Handle(ModeAfter(events[..|events| - 1]), events[|events| - 1])
  }

  /** The latest begin or end of a query is a begin. */
  ghost predicate Locked(events: seq<Event>) {
    exists i | 0 <= i < |events| :: events[i].BeginEvent? && forall k | i < k < |events| :: events[k].TypingEvent?
  }

  lemma LockedStep(events: seq<Event>, e: Event)
    ensures Locked(events + [e]) <==> e.BeginEvent? || (e.TypingEvent? && Locked(events))
  {
    var all := events + [e];
    if e.BeginEvent? {
      assert all[|events|].BeginEvent?;
    }
    if e.TypingEvent? && Locked(events) {
      var i :| 0 <= i < |events| && events[i].BeginEvent? && forall k | i < k < |events| :: events[k].TypingEvent?;
      assert all[i].BeginEvent?;
    }
    if Locked(all) && !e.BeginEvent? {
      var i :| 0 <= i < |all| && all[i].BeginEvent? && forall k | i < k < |all| :: all[k].TypingEvent?;
      assert all[|events|] == e;
      assert events[i].BeginEvent?;
      forall k | i < k < |events| ensures events[k].TypingEvent? {
        assert all[k] == events[k];
      }
    }
  }

  /** With atomic handlers, the mode is a function of the event history: locked exactly while the
      latest query event is a begin, typing exactly when unlocked and the very last event turned it on. */
  lemma {:induction false} ModeIsHistorical(events: seq<Event>)
    ensures ModeAfter(events) == Query <==> Locked(events)
    ensures ModeAfter(events) == Typing <==>
            !Locked(events) && events != [] && events[|events| - 1] == TypingEvent(true)
  {
    if events != [] {
      var before, e := events[..|events| - 1], events[|events| - 1];
      ModeIsHistorical(before);
      LockedStep(before, e);
      assert before + [e] == events;
    }
  }
}
