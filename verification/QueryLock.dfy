/** The capture-mode lock of a query: what opens and closes it across the whole protocol, the
    discipline under which it is exact, and what breaks it otherwise. */
module QueryLock {
  import opened CaptureMode
  import opened Options
  import opened ResponseStream
  import opened StreamProofs
  import opened StreamTheorems

  // ---- conservation of queries ------------------------------------------------------

  function Dones(ms: seq<Message>): nat {
    if ms == [] then 0 else Dones(ms[..|ms| - 1]) + (if ms[|ms| - 1].done then 1 else 0)
  }

  lemma {:induction false} DonesTail(ms: seq<Message>)
    requires ms != []
    ensures Dones(ms) == Dones(ms[1..]) + (if ms[0].done then 1 else 0)
  {
    if |ms| > 1 {
      DonesTail(ms[..|ms| - 1]);
      assert ms[..|ms| - 1][1..] == ms[1..][..|ms| - 2];
    }
  }

  lemma DonesSnoc(ms: seq<Message>, m: Message)
    ensures Dones(ms + [m]) == Dones(ms) + (if m.done then 1 else 0)
  {
    assert (ms + [m])[..|ms|] == ms;
  }

  /** Handlers that have locked the mode but not sent their query yet. */
  function MidSend(handlers: map<nat, Handler>): set<nat> {
    set h | h in handlers && handlers[h].phase.Begun?
  }

  function Running(tasks: map<nat, Task>): set<nat> {
    set t | t in tasks && Unfinished(tasks[t])
  }

  function InDispatch(d: Dispatch): nat {
    if (d.Found? && d.m.done) || d.Ending? then 1 else 0
  }

  /** Locks taken and neither released nor given up on. */
  function Outstanding(s: State): int {
    s.begun - s.ended - s.failed
  }

  /** Every such lock is one query somewhere on its way: about to be sent, on the channel, with its
      task still responding, or with its closing message on the way back. */
  ghost predicate Balanced(s: State) {
    Outstanding(s) ==
      |MidSend(s.handlers)| + |s.uplink| + |Running(s.tasks)| + Dones(s.downlink) + InDispatch(s.dispatch)
  }

  function Toggled(S: set<nat>, x: nat, inside: bool): set<nat> {
    if inside then S + {x} else S - {x}
  }

  lemma ToggledSize(S: set<nat>, x: nat, inside: bool)
    ensures |Toggled(S, x, inside)| == |S| - (if x in S then 1 else 0) + (if inside then 1 else 0)
  {
    if x in S {
      assert S + {x} == S;
    }
  }

  lemma MidSendPut(handlers: map<nat, Handler>, h: nat, K: Handler)
    ensures MidSend(handlers[h := K]) == Toggled(MidSend(handlers), h, K.phase.Begun?)
    ensures |MidSend(handlers[h := K])| == |MidSend(handlers)|
            - (if h in handlers && handlers[h].phase.Begun? then 1 else 0) + (if K.phase.Begun? then 1 else 0)
  {
    assert MidSend(handlers[h := K]) == Toggled(MidSend(handlers), h, K.phase.Begun?);
    ToggledSize(MidSend(handlers), h, K.phase.Begun?);
  }

  lemma RunningPut(tasks: map<nat, Task>, t: nat, T: Task)
    ensures Running(tasks[t := T]) == Toggled(Running(tasks), t, Unfinished(T))
    ensures |Running(tasks[t := T])| == |Running(tasks)|
            - (if t in tasks && Unfinished(tasks[t]) then 1 else 0) + (if Unfinished(T) then 1 else 0)
  {
    assert Running(tasks[t := T]) == Toggled(Running(tasks), t, Unfinished(T));
    ToggledSize(Running(tasks), t, Unfinished(T));
  }

  /** What a handler's step changes, as far as queries in flight are concerned. */
  ghost predicate HandlerShape(s: State, a: Action, t: State, h: nat) {
    && h in t.handlers && t.handlers == s.handlers[h := t.handlers[h]]
    && (h in s.handlers && s.handlers[h].phase.Begun? <==> a.Send?)
    && (t.handlers[h].phase.Begun? <==> a.Begin?) && (a.Begin? ==> a.h == h)
    && (if a.Send? && a.ok then
          |t.uplink| == |s.uplink| + 1 && t.uplink[..|s.uplink|] == s.uplink && t.uplink[|s.uplink|].origin == h
        else t.uplink == s.uplink)
    && t.tasks == s.tasks && t.downlink == s.downlink && t.dispatch == s.dispatch
    && t.begun == s.begun + (if a.Begin? then 1 else 0) && t.ended == s.ended
    && t.failed == s.failed + (if a.Send? && !a.ok then 1 else 0)
  }

  lemma HandlerStepShape(s: State, a: Action) returns (h: nat)
    requires HandlerStep(s, a).Some?
    ensures HandlerShape(s, a, HandlerStep(s, a).value, h)
  {
    match a
    case Register(g, _) => h := g;
    case Begin(g) => h := g;
    case Send(g, _) => h := g;
    case WriteError(g, _) => h := g;
    case Poll(g, _) => h := g;
    case Write(g, _) => h := g;
    case Erase(g) => h := g;
  }

  lemma HandlerStepBalanced(s: State, a: Action)
    requires Balanced(s) && HandlerStep(s, a).Some?
    ensures Balanced(HandlerStep(s, a).value)
  {
    hide HandlerStep;
    var h := HandlerStepShape(s, a);
    MidSendPut(s.handlers, h, HandlerStep(s, a).value.handlers[h]);
  }

  lemma ServerStepBalanced(s: State, a: Action)
    requires Balanced(s) && UplinkOk(s.handlers, s.uplink, s.tasks) && ServerStep(s, a).Some?
    ensures Balanced(ServerStep(s, a).value)
  {
    var t := ServerStep(s, a).value;
    match a
    case Accept(plan) => RunningPut(s.tasks, s.uplink[0].origin, Task(s.uplink[0].sid, plan, 0));
    case Emit(k) =>
      RunningPut(s.tasks, k, t.tasks[k]);
      DonesSnoc(s.downlink, t.downlink[|s.downlink|]);
  }

  lemma ClientStepBalanced(s: State, a: Action)
    requires Balanced(s) && DispatchOk(s.dispatch, s.handlers) && ClientStep(s, a).Some?
    ensures Balanced(ClientStep(s, a).value)
  {
    var t := ClientStep(s, a).value;
    match a
    case Receive => DonesTail(s.downlink);
    case Push =>
      if s.dispatch.target.Some? {
        MidSendPut(s.handlers, s.dispatch.target.value, t.handlers[s.dispatch.target.value]);
      }
    case End =>
    case LoadTyping(on) =>
    case StoreTyping(i) =>
  }

  lemma StepBalanced(s: State, a: Action)
    requires Inv(s) && Balanced(s) && Step(s, a).Some?
    ensures Balanced(Step(s, a).value)
  {
    hide Inv, HandlersOk, TasksOk, UplinkOk, DispatchOk, Balanced;
    InvParts(s);
    if HandlerStep(s, a).Some? {
      HandlerStepBalanced(s, a);
    } else if ServerStep(s, a).Some? {
      ServerStepBalanced(s, a);
    } else {
      ClientStepBalanced(s, a);
    }
  }

  lemma InvParts(s: State)
    requires Inv(s)
    ensures UplinkOk(s.handlers, s.uplink, s.tasks) && DispatchOk(s.dispatch, s.handlers)
  {
  }

  /** Over every interleaving, begins are the sum of ends, failed sends and queries in flight, so each
      query that is sent ends the lock at most once, and once all is quiet, exactly once. */
  lemma {:induction false} QueriesConserved(actions: seq<Action>)
    ensures Run(actions).Some? ==> Balanced(Run(actions).value)
  {
    hide Inv, Balanced, Step;
    if actions == [] {
      InitBalanced();
    } else {
      QueriesConserved(actions[..|actions| - 1]);
      if Run(actions).Some? {
        RunKeeps(actions[..|actions| - 1]);
        StepBalanced(Run(actions[..|actions| - 1]).value, actions[|actions| - 1]);
      }
    }
  }

  lemma InitBalanced()
    ensures Balanced(INIT)
  {
    assert MidSend(INIT.handlers) == {} && Running(INIT.tasks) == {};
  }

  // ---- the lock ---------------------------------------------------------------------

  /** The mode is `Query` exactly while a query is outstanding. */
  predicate LockExact(s: State) {
    s.mode == Query <==> Outstanding(s) > 0
  }

  /** What a step must not do: give up on the only outstanding query, close one of several, or store a
      typing mode loaded before a query began. */
  predicate KeepsLock(s: State, a: Action) {
    match a
    case Send(h, ok) => ok || Outstanding(s) != 1
    case End => Outstanding(s) <= 1
    case StoreTyping(i) => Outstanding(s) <= 0
    case _ => true
  }

  /** A typing handler goes on to store only what changes the mode it loaded, or keeps it typing: nothing
      once it has seen a query, and nothing for an end of typing unless it saw typing. */
  lemma LoadArms(s: State, on: bool)
    ensures Step(s, LoadTyping(on)).Some?
    ensures Step(s, LoadTyping(on)).value.armed
            == s.armed + if on && s.mode != Query then [Typing] else if !on && s.mode == Typing then [Idle] else []
  {
    assert s.armed + [] == s.armed;
  }

  ghost predicate TypingArmed(s: State) {
    forall i | 0 <= i < |s.armed| :: s.armed[i] != Query
  }

  lemma ArmedTyping(s: State, a: Action)
    requires TypingArmed(s) && Step(s, a).Some?
    ensures TypingArmed(Step(s, a).value)
  {
  }

  /** From an exact lock, those are precisely the steps that break it. */
  lemma LockStep(s: State, a: Action)
    requires LockExact(s) && Outstanding(s) >= 0 && TypingArmed(s) && Step(s, a).Some?
    ensures LockExact(Step(s, a).value) <==> KeepsLock(s, a)
  {
    if a.LoadTyping? || a.StoreTyping? || a.End? || a.Receive? || a.Push? {
      assert Step(s, a) == ClientStep(s, a);
    }
  }

  lemma {:induction false} ArmedRun(actions: seq<Action>)
    requires Run(actions).Some?
    ensures TypingArmed(Run(actions).value)
  {
    hide Step, TypingArmed;
    if actions == [] {
      assert TypingArmed(INIT) by {
        NoneArmed(INIT);
      }
    } else {
      ArmedRun(actions[..|actions| - 1]);
      ArmedTyping(Run(actions[..|actions| - 1]).value, actions[|actions| - 1]);
    }
  }

  lemma NoneArmed(s: State)
    requires s.armed == []
    ensures TypingArmed(s)
  {
  }

  lemma NoneOverdrawn(s: State)
    requires Balanced(s)
    ensures Outstanding(s) >= 0
  {
  }

  /** The lock is exact at step `i` of a run. */
  predicate ExactAt(actions: seq<Action>, i: nat)
    requires i <= |actions|
  {
    Run(actions[..i]).Some? ==> LockExact(Run(actions[..i]).value)
  }

  predicate KeptAt(actions: seq<Action>, i: nat)
    requires i < |actions|
  {
    Run(actions[..i]).Some? ==> KeepsLock(Run(actions[..i]).value, actions[i])
  }

  /** One step of a run: from an exact lock, the next is exact if and only if the step keeps it. */
  lemma ExactNext(actions: seq<Action>, i: nat)
    requires Run(actions).Some? && i < |actions| && ExactAt(actions, i)
    ensures ExactAt(actions, i + 1) <==> KeptAt(actions, i)
  {
    hide Run, Step, Balanced, TypingArmed, LockExact, KeepsLock;
    PrefixRuns(actions, i);
    PrefixRuns(actions, i + 1);
    ArmedRun(actions[..i]);
    QueriesConserved(actions[..i]);
    NoneOverdrawn(Run(actions[..i]).value);
    LockStep(Run(actions[..i]).value, actions[i]);
  }

  lemma {:induction false} KeptMeansExact(actions: seq<Action>, n: nat)
    requires Run(actions).Some? && n <= |actions|
    requires forall i | 0 <= i < n :: KeptAt(actions, i)
    ensures ExactAt(actions, n)
  {
    if n == 0 {
      assert actions[..0] == [];
    } else {
      hide ExactAt, KeptAt, Run;
      KeptMeansExact(actions, n - 1);
      ExactNext(actions, n - 1);
    }
  }

  /** The lock is exact at every moment of a run if and only if no step of it is one of the three. */
  lemma LockExactly(actions: seq<Action>)
    requires Run(actions).Some?
    ensures (forall i | 0 <= i <= |actions| :: ExactAt(actions, i)) <==>
            (forall i | 0 <= i < |actions| :: KeptAt(actions, i))
  {
    hide ExactAt, KeptAt, Run;
    if forall i | 0 <= i < |actions| :: KeptAt(actions, i) {
      forall n | 0 <= n <= |actions| ensures ExactAt(actions, n) {
        KeptMeansExact(actions, n);
      }
    }
    if forall i | 0 <= i <= |actions| :: ExactAt(actions, i) {
      forall i | 0 <= i < |actions| ensures KeptAt(actions, i) {
        ExactNext(actions, i);
      }
    }
  }

  /** One query at a time, begun while no typing handler is between its load and its store, and every
      send successful. */
  ghost predicate Disciplined(actions: seq<Action>) {
    forall i | 0 <= i < |actions| && Run(actions[..i]).Some? :: Permitted(Run(actions[..i]).value, actions[i])
  }

  predicate Permitted(s: State, a: Action) {
    match a
    case Begin(h) => Outstanding(s) == 0 && s.armed == []
    case Send(h, ok) => ok
    case _ => true
  }

  /** The handler that locked the mode last. */
  function Locker(actions: seq<Action>): Option<nat> {
    if actions == [] then None
    else match actions[|actions| - 1]
         case Begin(h) => Some(h)
         case _ => Locker(actions[..|actions| - 1])
  }

  ghost predicate DonesFrom(ms: seq<Message>, h: nat) {
    forall i | 0 <= i < |ms| :: ms[i].done ==> ms[i].origin == h
  }

  /** Whatever is in flight belongs to this handler's query. */
  ghost predicate FlightOf(s: State, h: nat) {
    && MidSend(s.handlers) <= {h}
    && (forall i | 0 <= i < |s.uplink| :: s.uplink[i].origin == h)
    && Running(s.tasks) <= {h}
    && DonesFrom(s.downlink, h)
    && (InDispatch(s.dispatch) == 1 ==> s.dispatch.m.origin == h)
  }

  lemma {:induction false} NoDonesInside(ms: seq<Message>)
    requires Dones(ms) == 0
    ensures NoDone(ms)
  {
    if ms != [] {
      NoDonesInside(ms[..|ms| - 1]);
    }
  }

  lemma QuietFlight(s: State, h: nat)
    requires Balanced(s) && Outstanding(s) == 0
    ensures FlightOf(s, h)
  {
    NoDonesInside(s.downlink);
    assert MidSend(s.handlers) == {} && Running(s.tasks) == {};
  }

  lemma FlightStep(s: State, a: Action, h: nat)
    requires Inv(s) && FlightOf(s, h) && Step(s, a).Some? && (a.Begin? ==> a.h == h)
    ensures FlightOf(Step(s, a).value, h)
  {
    hide Inv, FlightOf;
    InvParts(s);
    if HandlerStep(s, a).Some? {
      FlightHandlerStep(s, a, h);
    } else if ServerStep(s, a).Some? {
      FlightServerStep(s, a, h);
    } else {
      FlightClientStep(s, a, h);
    }
  }

  lemma FlightHandlerStep(s: State, a: Action, h: nat)
    requires FlightOf(s, h) && HandlerStep(s, a).Some? && (a.Begin? ==> a.h == h)
    ensures FlightOf(HandlerStep(s, a).value, h)
  {
    hide HandlerStep, DonesFrom;
    var g := HandlerStepShape(s, a);
    var t := HandlerStep(s, a).value;
    MidSendPut(s.handlers, g, t.handlers[g]);
    if a.Send? {
      assert g in MidSend(s.handlers);
    }
    forall i | 0 <= i < |t.uplink| ensures t.uplink[i].origin == h {
      if i < |s.uplink| {
        assert t.uplink[i] == t.uplink[..|s.uplink|][i];
      }
    }
  }

  lemma FlightServerStep(s: State, a: Action, h: nat)
    requires FlightOf(s, h) && ServerStep(s, a).Some?
    ensures FlightOf(ServerStep(s, a).value, h)
  {
    var t := ServerStep(s, a).value;
    match a
    case Accept(plan) => RunningPut(s.tasks, s.uplink[0].origin, Task(s.uplink[0].sid, plan, 0));
    case Emit(k) =>
      assert k in Running(s.tasks);
      RunningPut(s.tasks, k, t.tasks[k]);
  }

  lemma DispatchTarget(d: Dispatch, handlers: map<nat, Handler>)
    requires DispatchOk(d, handlers)
    ensures d.Found? && d.target.Some? ==> d.target.value in handlers
    ensures d.Ending? ==> d.m.done
  {
  }

  lemma FlightClientStep(s: State, a: Action, h: nat)
    requires FlightOf(s, h) && DispatchOk(s.dispatch, s.handlers) && ClientStep(s, a).Some?
    ensures FlightOf(ClientStep(s, a).value, h)
  {
    hide DispatchOk;
    DispatchTarget(s.dispatch, s.handlers);
    var t := ClientStep(s, a).value;
    match a
    case Receive => assert forall i | 0 <= i < |t.downlink| :: t.downlink[i] == s.downlink[i + 1];
    case Push =>
      if s.dispatch.target.Some? {
        MidSendPut(s.handlers, s.dispatch.target.value, t.handlers[s.dispatch.target.value]);
      }
    case End =>
    case LoadTyping(on) =>
    case StoreTyping(i) =>
  }

  /** What a disciplined run keeps. */
  ghost predicate LockInv(s: State, locker: Option<nat>) {
    && LockExact(s) && 0 <= Outstanding(s) <= 1 && TypingArmed(s)
    && (s.armed != [] ==> Outstanding(s) == 0)
    && (Outstanding(s) == 1 ==> locker.Some? && FlightOf(s, locker.value))
  }

  lemma OutstandingStep(s: State, a: Action)
    requires Step(s, a).Some?
    ensures Outstanding(Step(s, a).value) - Outstanding(s) ==
            match a
            case Begin(h) => 1
            case Send(h, ok) => if ok then 0 else -1
            case End => -1
            case _ => 0
    ensures a.StoreTyping? ==> s.armed != []
    ensures Step(s, a).value.armed != [] ==> s.armed != [] || (a.LoadTyping? && s.mode != Query)
  {
  }

  lemma BalancedCounts(s: State)
    requires Balanced(s)
    ensures Outstanding(s) >= InDispatch(s.dispatch)
  {
  }

  lemma LockInvStep(s: State, a: Action, locker: Option<nat>)
    requires Inv(s) && Balanced(s) && LockInv(s, locker) && Permitted(s, a) && Step(s, a).Some?
    ensures LockInv(Step(s, a).value, if a.Begin? then Some(a.h) else locker)
  {
    hide Inv, Balanced, FlightOf, Step;
    BalancedCounts(s);
    OutstandingStep(s, a);
    ArmedTyping(s, a);
    LockStep(s, a);
    StepBalanced(s, a);
    BalancedCounts(Step(s, a).value);
    if a.Begin? {
      QuietFlight(s, a.h);
      FlightStep(s, a, a.h);
    } else if Outstanding(s) == 1 {
      FlightStep(s, a, locker.value);
    }
  }

  lemma InitLocked(s: State, locker: Option<nat>)
    requires s.begun == s.ended == s.failed == 0 && s.mode == Idle && s.armed == []
    ensures LockInv(s, locker)
  {
  }

  lemma DisciplinedPrefix(actions: seq<Action>)
    requires actions != [] && Disciplined(actions)
    ensures Disciplined(actions[..|actions| - 1])
  {
    hide Run, Permitted;
    var init := actions[..|actions| - 1];
    forall i | 0 <= i < |init| ensures init[..i] == actions[..i] && init[i] == actions[i] {
    }
  }

  lemma {:induction false} LockInvHolds(actions: seq<Action>)
    requires Run(actions).Some? && Disciplined(actions)
    ensures LockInv(Run(actions).value, Locker(actions))
  {
    hide Inv, Balanced, LockInv, Step, Permitted;
    if actions == [] {
      InitLocked(INIT, None);
    } else {
      var init := actions[..|actions| - 1];
      DisciplinedPrefix(actions);
      LockInvHolds(init);
      RunKeeps(init);
      QueriesConserved(init);
      LockInvStep(Run(init).value, actions[|actions| - 1], Locker(init));
    }
  }

  /** With one outstanding query at a time, atomic typing handlers and successful sends, the mode is
      locked from a query's begin until the closing message of that same query has been handled. */
  lemma LockHolds(actions: seq<Action>, s: State)
    requires Reaches(actions, s) && Disciplined(actions)
    ensures s.mode == Query <==> Outstanding(s) > 0
    ensures s.dispatch.Ending? ==> Locker(actions) == Some(s.dispatch.m.origin) && s.mode == Query
  {
    LockInvHolds(actions);
    QueriesConserved(actions);
  }

  // ---- where the hypotheses matter --------------------------------------------------

  /** `EndQuery` ignores its id: with two queries in flight, the first closing message unlocks the mode
      while the second query is still on the channel. */
  lemma OverlapUnlocks() returns (actions: seq<Action>, s: State)
    ensures Reaches(actions, s) && s.mode == Idle && Outstanding(s) == 1 && s.uplink == [Request("b", 1)]
  {
    var a, s0 := TwoAsked("a", "b");
    hide Run;
    actions := a;
    var plan, m := Plan([], None), Closing("a", 0);
    var s1 := s0.(uplink := [Request("b", 1)], tasks := map[0 := Task("a", plan, 0)]);
    var s2 := s1.(tasks := map[0 := Task("a", plan, 1)], downlink := [m], sent := [m]);
    var s3 := s2.(downlink := [], routed := [m], dispatch := Found(m, Some(0)));
    var s4 := s3.(handlers := s0.handlers[0 := Pushed(s0.handlers[0], m)], dispatch := Ending(m));
    s := s4.(dispatch := Ready, mode := Idle, ended := 1);
    Hop(actions, s0, Accept(plan), s1);
    actions := actions + [Accept(plan)];
    Hop(actions, s1, Emit(0), s2);
    actions := actions + [Emit(0)];
    Hop(actions, s2, Receive, s3);
    actions := actions + [Receive];
    Hop(actions, s3, Push, s4);
    actions := actions + [Push];
    Hop(actions, s4, End, s);
    actions := actions + [End];
  }

  /** After a failed send the caller has left, nothing is in flight, and the mode stays locked. */
  lemma FailedSendStaysLocked() returns (actions: seq<Action>, s: State)
    ensures Reaches(actions, s) && s.mode == Query && Outstanding(s) == 0
    ensures forall h | h in s.handlers :: s.handlers[h].phase.Gone?
  {
    hide Run;
    Start();
    var s1 := INIT.(sessions := map["a" := 0], handlers := map[0 := Caller("a", Registered)]);
    var s2 := s1.(handlers := map[0 := Caller("a", Begun)], mode := Query, begun := 1);
    var s3 := s2.(handlers := map[0 := Caller("a", SendFailed)], failed := 1);
    var s4 := s3.(handlers := map[0 := Caller("a", Leaving(NotReady))]);
    s := s4.(handlers := map[0 := Caller("a", Gone(NotReady))], sessions := map[]);
    actions := [];
    Hop(actions, INIT, Register(0, "a"), s1);
    actions := actions + [Register(0, "a")];
    Hop(actions, s1, Begin(0), s2);
    actions := actions + [Begin(0)];
    Hop(actions, s2, Send(0, false), s3);
    actions := actions + [Send(0, false)];
    Hop(actions, s3, WriteError(0, false), s4);
    actions := actions + [WriteError(0, false)];
    Hop(actions, s4, Erase(0), s);
    actions := actions + [Erase(0)];
  }

  /** `SetTyping` loads and stores separately: a query that begins in between loses its lock. */
  lemma SplitTypingUnlocks() returns (actions: seq<Action>, s: State)
    ensures Reaches(actions, s) && s.mode == Typing && Outstanding(s) == 1
  {
    hide Run;
    Start();
    var s1 := INIT.(sessions := map["a" := 0], handlers := map[0 := Caller("a", Registered)]);
    var s2 := s1.(armed := [Typing]);
    var s3 := s2.(handlers := map[0 := Caller("a", Begun)], mode := Query, begun := 1);
    s := s3.(mode := Typing, armed := []);
    actions := [];
    Hop(actions, INIT, Register(0, "a"), s1);
    actions := actions + [Register(0, "a")];
    Hop(actions, s1, LoadTyping(true), s2);
    actions := actions + [LoadTyping(true)];
    Hop(actions, s2, Begin(0), s3);
    actions := actions + [Begin(0)];
    Hop(actions, s3, StoreTyping(0), s);
    actions := actions + [StoreTyping(0)];
  }
}
