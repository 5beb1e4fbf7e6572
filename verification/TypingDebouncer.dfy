/** The prompt app's typing debouncer: a keystroke thread and a polling thread share a flag under a
    lock but send their notifications outside it. The state machine takes each lock region, each send
    and each unlocked read as one step; every interleaving of them is a run. Times are microseconds. */
module TypingDebouncer {
  import Capture = CaptureMode
  import opened Options

  const NAP: nat := 100_000
  const JOIN_TIMEOUT: nat := 1_000_000

  /** The fields the lock protects. */
  datatype Core = Core(typing: bool, last: nat, startUs: Option<nat>)

  datatype Main = Free | Captured(t: nat) | Starting | Joining(since: nat) | Closing | Closed

  datatype Runner = Head | Asleep(until: nat) | Stopping | Exited

  /** A change of the flag, with the time and the number of keystrokes processed by then. */
  datatype Flip = Flip(on: bool, at: nat, keys: nat)

  /** `keys` holds the times the processed keystrokes were captured at, `flips` the changes of the flag,
      `sent` the notifications in the order they were delivered; all three are history. */
  datatype State = State(
    core: Core, main: Main, run: Runner, stop: bool, now: nat,
    sent: seq<bool>, keys: seq<nat>, flips: seq<Flip>, read: Option<bool>)

  const INIT := State(Core(false, 0, None), Free, Head, false, 0, [], [], [], None)

  datatype Action =
    | Tick(d: nat)
    | KeyBegin | KeyLock | SendStart
    | Shutdown | ReadFlag | SendLast
    | CheckStop | Check | SendStop

  /** The keystroke's lock region, for a keystroke captured at `t`. */
  function KeyRegion(c: Core, t: nat, wall: nat): Core {
    if c.typing then c.(last := t) else Core(true, t, Some(wall))
  }

  /** The poll's lock region. */
  function CheckRegion(c: Core, now: nat, idle: nat): Core {
    if c.typing && now - c.last >= idle then c.(typing := false) else c
  }

  function MainStep(s: State, a: Action): Option<State> {
    match a
    case KeyBegin => if s.main.Free? then Some(s.(main := Captured(s.now))) else None
    case KeyLock =>
      if !s.main.Captured? then None
      else
        var t := s.(core := KeyRegion(s.core, s.main.t, s.now), keys := s.keys + [s.main.t]);
        if s.core.typing then Some(t.(main := Free))
        else Some(t.(main := Starting, flips := s.flips + [Flip(true, s.now, |t.keys|)]))
    case SendStart => if s.main.Starting? then Some(s.(main := Free, sent := s.sent + [true])) else None
    case Shutdown => if s.main.Free? then Some(s.(main := Joining(s.now), stop := true)) else None
    case ReadFlag =>
      if s.main.Joining? && (s.run.Exited? || s.now - s.main.since >= JOIN_TIMEOUT)
      then Some(s.(main := if s.core.typing then Closing else Closed, read := Some(s.core.typing))) else None
    case SendLast => if s.main.Closing? then Some(s.(main := Closed, sent := s.sent + [false])) else None
    case _ => None
  }

  function RunStep(s: State, a: Action, idle: nat): Option<State> {
    match a
    case CheckStop =>
      if s.run.Head? then Some(s.(run := if s.stop then Exited else Asleep(s.now + NAP))) else None
    case Check =>
      if s.run.Asleep? && s.now >= s.run.until then
        var c := CheckRegion(s.core, s.now, idle);
        if s.core.typing && !c.typing
        then Some(s.(core := c, run := Stopping, flips := s.flips + [Flip(false, s.now, |s.keys|)]))
        else Some(s.(run := Head))
      else None
    case SendStop => if s.run.Stopping? then Some(s.(run := Head, sent := s.sent + [false])) else None
    case _ => None
  }

  function Step(s: State, a: Action, idle: nat): Option<State> {
    if a.Tick? then Some(s.(now := s.now + a.d))
    else match MainStep(s, a)
         case Some(t) => Some(t)
         case None => RunStep(s, a, idle)
  }

  function Runs(s: State, actions: seq<Action>, idle: nat): Option<State> {
    if actions == [] then Some(s)
    else match Runs(s, actions[..|actions| - 1], idle)
         case None => None
         case Some(t) => Step(t, actions[|actions| - 1], idle)
  }

  ghost predicate Reaches(s: State, idle: nat) {
    exists actions :: Runs(INIT, actions, idle) == Some(s)
  }

  // ---- the invariant ----------------------------------------------------------------

  function Count(sent: seq<bool>, on: bool): nat {
    if sent == [] then 0 else Count(sent[..|sent| - 1], on) + (if sent[|sent| - 1] == on then 1 else 0)
  }

  function Starts(s: State): nat {
    Count(s.sent, true) + if s.main.Starting? then 1 else 0
  }

  function Stops(s: State): nat {
    Count(s.sent, false) + (if s.run.Stopping? then 1 else 0) + if s.main.Closing? then 1 else 0
  }

  /** Flips alternate, starting with on. */
  ghost predicate Alternates(core: Core, flips: seq<Flip>) {
    && (forall i | 0 <= i < |flips| :: flips[i].on == (i % 2 == 0))
    && core.typing == (|flips| % 2 == 1)
  }

  /** The stop that shutdown adds of its own. */
  function Extra(s: State): nat {
    if s.read == Some(true) then 1 else 0
  }

  /** Each flip is sent or in flight exactly once. */
  ghost predicate SendsOk(s: State) {
    && Starts(s) + Stops(s) == |s.flips| + Extra(s)
    && Starts(s) - Stops(s) == (if s.core.typing then 1 else 0) - Extra(s)
  }

  ghost predicate MainOk(s: State) {
    && (s.stop <==> s.main.Joining? || s.main.Closing? || s.main.Closed?)
    && (s.read.Some? <==> s.main.Closing? || s.main.Closed?)
    && (s.read == Some(false) ==> !s.core.typing)
    && (s.main.Closing? ==> s.read == Some(true))
    && (s.run.Exited? ==> s.stop)
  }

  ghost predicate KeysOk(core: Core, main: Main, now: nat, keys: seq<nat>) {
    && core.last <= now
    && (forall i | 0 <= i < |keys| :: keys[i] <= core.last)
    && (main.Captured? ==> core.last <= main.t <= now)
  }

  ghost predicate OnFlip(f: Flip, keys: seq<nat>) {
    0 < f.keys <= |keys| && keys[f.keys - 1] <= f.at
  }

  ghost predicate OffFlip(f: Flip, keys: seq<nat>, idle: nat) {
    f.keys <= |keys| && forall k | 0 <= k < f.keys :: f.at - keys[k] >= idle
  }

  /** The number of keystrokes processed before flip `i`, if it was made by one. */
  function KeysBefore(flips: seq<Flip>, i: nat): nat
    requires i <= |flips|
  {
    if i == 0 then 0 else flips[i - 1].keys
  }

  ghost predicate FlipsOk(core: Core, keys: seq<nat>, flips: seq<Flip>, idle: nat) {
    && (forall i | 0 <= i < |flips| :: if flips[i].on then OnFlip(flips[i], keys) else OffFlip(flips[i], keys, idle))
    && (forall i: nat | i < |flips| :: flips[i].on ==> flips[i].keys == KeysBefore(flips, i) + 1)
    && (!core.typing ==> KeysBefore(flips, |flips|) == |keys|)
  }

  /** The latest change of the flag to on. */
  function LatestOn(flips: seq<Flip>): Option<Flip> {
    if flips == [] then None
    else if flips[|flips| - 1].on then Some(flips[|flips| - 1]) else LatestOn(flips[..|flips| - 1])
  }

  ghost predicate StartOk(core: Core, flips: seq<Flip>) {
    core.startUs == match LatestOn(flips) case None => None case Some(f) => Some(f.at)
  }

  ghost predicate Inv(s: State, idle: nat) {
    && Alternates(s.core, s.flips) && SendsOk(s) && MainOk(s) && KeysOk(s.core, s.main, s.now, s.keys)
    && FlipsOk(s.core, s.keys, s.flips, idle) && StartOk(s.core, s.flips)
  }

  // ---- every step keeps it ----------------------------------------------------------

  lemma CountSnoc(sent: seq<bool>, x: bool, on: bool)
    ensures Count(sent + [x], on) == Count(sent, on) + if x == on then 1 else 0
  {
    assert (sent + [x])[..|sent|] == sent;
  }

  lemma AlternatesKept(s: State, a: Action, idle: nat)
    requires Alternates(s.core, s.flips) && Step(s, a, idle).Some?
    ensures var t := Step(s, a, idle).value; Alternates(t.core, t.flips)
  {
  }

  lemma MainKept(s: State, a: Action, idle: nat)
    requires MainOk(s) && Step(s, a, idle).Some?
    ensures MainOk(Step(s, a, idle).value)
  {
  }

  lemma SendsKept(s: State, a: Action, idle: nat)
    requires SendsOk(s) && MainOk(s) && Step(s, a, idle).Some?
    ensures SendsOk(Step(s, a, idle).value)
  {
    hide Count;
    if a.SendStart? {
      CountSnoc(s.sent, true, true);
      CountSnoc(s.sent, true, false);
    } else if a.SendLast? || a.SendStop? {
      CountSnoc(s.sent, false, true);
      CountSnoc(s.sent, false, false);
    }
  }

  lemma KeysKept(s: State, a: Action, idle: nat)
    requires KeysOk(s.core, s.main, s.now, s.keys) && Step(s, a, idle).Some?
    ensures var t := Step(s, a, idle).value; KeysOk(t.core, t.main, t.now, t.keys)
  {
  }

  lemma FlipsGrow(core: Core, keys: seq<nat>, flips: seq<Flip>, idle: nat, next: Core, keys': seq<nat>, f: Flip)
    requires FlipsOk(core, keys, flips, idle) && keys <= keys'
    requires if f.on then OnFlip(f, keys') && f.keys == KeysBefore(flips, |flips|) + 1 else OffFlip(f, keys', idle)
    requires !next.typing ==> f.keys == |keys'|
    ensures FlipsOk(next, keys', flips + [f], idle)
  {
    var flips' := flips + [f];
    forall i: nat | i < |flips'| ensures flips'[i].on ==> flips'[i].keys == KeysBefore(flips', i) + 1 {
      if i < |flips| {
        assert flips'[i] == flips[i] && KeysBefore(flips', i) == KeysBefore(flips, i);
      }
    }
  }

  lemma FlipsKept(s: State, a: Action, idle: nat)
    requires Inv(s, idle) && Step(s, a, idle).Some?
    ensures var t := Step(s, a, idle).value; FlipsOk(t.core, t.keys, t.flips, idle)
  {
    var t := Step(s, a, idle).value;
    if |t.flips| > |s.flips| {
      var f := t.flips[|s.flips|];
      if !f.on {
        assert forall k | 0 <= k < |s.keys| :: s.keys[k] <= s.core.last;
      }
      FlipsGrow(s.core, s.keys, s.flips, idle, t.core, t.keys, f);
    }
  }

  lemma LatestOnSnoc(flips: seq<Flip>, f: Flip)
    ensures LatestOn(flips + [f]) == if f.on then Some(f) else LatestOn(flips)
  {
    assert (flips + [f])[..|flips|] == flips;
  }

  lemma StartKept(s: State, a: Action, idle: nat)
    requires StartOk(s.core, s.flips) && Step(s, a, idle).Some?
    ensures var t := Step(s, a, idle).value; StartOk(t.core, t.flips)
  {
    hide LatestOn;
    LatestOnSnoc(s.flips, Flip(true, s.now, |s.keys| + 1));
    LatestOnSnoc(s.flips, Flip(false, s.now, |s.keys|));
  }

  lemma StepKeeps(s: State, a: Action, idle: nat)
    requires Inv(s, idle) && Step(s, a, idle).Some?
    ensures Inv(Step(s, a, idle).value, idle)
  {
    AlternatesKept(s, a, idle);
    MainKept(s, a, idle);
    SendsKept(s, a, idle);
    KeysKept(s, a, idle);
    FlipsKept(s, a, idle);
    StartKept(s, a, idle);
    hide Step, Alternates, SendsOk, MainOk, KeysOk, FlipsOk, StartOk;
  }

  lemma {:induction false} RunsKeep(s: State, actions: seq<Action>, idle: nat)
    requires Inv(s, idle) && Runs(s, actions, idle).Some?
    ensures Inv(Runs(s, actions, idle).value, idle)
  {
    hide Inv, Step;
    if actions != [] {
      var init := actions[..|actions| - 1];
      RunsKeep(s, init, idle);
      StepKeeps(Runs(s, init, idle).value, actions[|actions| - 1], idle);
    }
  }

  lemma ReachableInv(s: State, idle: nat)
    requires Reaches(s, idle)
    ensures Inv(s, idle)
  {
    var actions :| Runs(INIT, actions, idle) == Some(s);
    RunsKeep(INIT, actions, idle);
  }

  // ---- what holds in every run ------------------------------------------------------

  /** Until shutdown reads the flag, starts less stops, sent or in flight, is one while typing and zero
      otherwise, whatever order they are delivered in. */
  lemma NotificationsConserved(s: State, idle: nat)
    requires Reaches(s, idle) && s.read == None
    ensures Starts(s) - Stops(s) == if s.core.typing then 1 else 0
  {
    ReachableInv(s, idle);
  }

  /** The flag never changes twice the same way, and is turned off only when every keystroke processed
      by then was captured at least the idle time before. */
  lemma StopsAfterSilence(s: State, idle: nat, i: nat)
    requires Reaches(s, idle) && i < |s.flips|
    ensures s.flips[i].on <==> i % 2 == 0
    ensures s.flips[i].keys <= |s.keys|
    ensures !s.flips[i].on ==> forall k | 0 <= k < s.flips[i].keys :: s.flips[i].at - s.keys[k] >= idle
  {
    ReachableInv(s, idle);
  }

  lemma {:induction false} LatestOnAt(flips: seq<Flip>) returns (i: nat)
    requires LatestOn(flips).Some?
    ensures i < |flips| && flips[i].on && LatestOn(flips) == Some(flips[i])
    ensures forall j | i < j < |flips| :: !flips[j].on
  {
    i := |flips| - 1;
    if !flips[i].on {
      i := LatestOnAt(flips[..i]);
    }
  }

  /** The reported burst start is the time the flag was last turned on, by the first keystroke after
      the flag had last been turned off (or the first of all), no earlier than that keystroke. */
  lemma BurstStart(s: State, idle: nat) returns (i: nat)
    requires Reaches(s, idle) && s.core.startUs.Some?
    ensures i < |s.flips| && s.flips[i].on && forall j | i < j < |s.flips| :: !s.flips[j].on
    ensures s.core.startUs == Some(s.flips[i].at)
    ensures var opener := if i == 0 then 0 else s.flips[i - 1].keys;
            opener < |s.keys| && s.flips[i].keys == opener + 1 && s.keys[opener] <= s.flips[i].at
  {
    ReachableInv(s, idle);
    i := LatestOnAt(s.flips);
  }

  /** There is a burst start to report exactly when there has been a keystroke. */
  lemma StartKnown(s: State, idle: nat)
    requires Reaches(s, idle)
    ensures s.core.startUs.Some? <==> s.keys != []
  {
    ReachableInv(s, idle);
    if s.flips != [] {
      assert s.flips[0].on && s.flips[0].keys <= |s.keys|;
      OnMeansLatest(s.flips, 0);
    }
  }

  lemma {:induction false} OnMeansLatest(flips: seq<Flip>, i: nat)
    requires i < |flips| && flips[i].on
    ensures LatestOn(flips).Some?
  {
    if !flips[|flips| - 1].on {
      OnMeansLatest(flips[..|flips| - 1], i);
    }
  }

  // ---- how long things take ---------------------------------------------------------

  /** Since `then`, the polling thread has only gone to sleep for a tenth of a second. */
  predicate SleptSince(s: State, start: nat) {
    s.now >= start && (s.run.Asleep? ==> s.run.until >= start + 100_000)
  }

  lemma {:induction false} SleepsSince(s: State, more: seq<Action>, idle: nat)
    requires !s.run.Asleep? && Runs(s, more, idle).Some?
    ensures SleptSince(Runs(s, more, idle).value, s.now)
  {
    if more != [] {
      SleepsSince(s, more[..|more| - 1], idle);
    }
  }

  /** Between any moment the polling thread is awake and its next check at least a tenth of a second passes. */
  lemma ChecksApart(s: State, more: seq<Action>, idle: nat)
    requires !s.run.Asleep? && Runs(s, more, idle).Some? && Step(Runs(s, more, idle).value, Check, idle).Some?
    ensures Runs(s, more, idle).value.now - s.now >= 100_000
  {
    SleepsSince(s, more, idle);
  }

  predicate JoiningSince(s: State, start: nat) {
    s.now >= start && (s.main.Joining? ==> s.main.since == start)
  }

  lemma {:induction false} JoinsSince(s: State, more: seq<Action>, idle: nat)
    requires s.main.Joining? && s.main.since == s.now && Runs(s, more, idle).Some?
    ensures JoiningSince(Runs(s, more, idle).value, s.now)
    ensures var t := Runs(s, more, idle).value; t.main.Joining? || t.main.Closing? || t.main.Closed?
  {
    if more != [] {
      JoinsSince(s, more[..|more| - 1], idle);
    }
  }

  /** A shutdown reads the flag only once the polling thread has left, or a second after it asked it to. */
  lemma ReadWaits(s: State, more: seq<Action>, idle: nat)
    requires Step(s, Shutdown, idle).Some? && Runs(Step(s, Shutdown, idle).value, more, idle).Some?
    requires Step(Runs(Step(s, Shutdown, idle).value, more, idle).value, ReadFlag, idle).Some?
    ensures var t := Runs(Step(s, Shutdown, idle).value, more, idle).value;
            t.run.Exited? || t.now - s.now >= 1_000_000
  {
    JoinsSince(Step(s, Shutdown, idle).value, more, idle);
  }

  // ---- shutdown ---------------------------------------------------------------------

  /** Once shutdown has read the flag, nothing but a late poll changes it. */
  lemma {:induction false} AfterRead(s: State, actions: seq<Action>, idle: nat)
    requires Inv(s, idle) && s.read.Some? && !(s.run.Asleep? && s.core.typing)
    requires Runs(s, actions, idle).Some?
    ensures var t := Runs(s, actions, idle).value;
            Inv(t, idle) && t.read == s.read && t.core.typing == s.core.typing && !(t.run.Asleep? && t.core.typing)
  {
    hide SendsOk, KeysOk, FlipsOk, StartOk;
    if actions != [] {
      var init := actions[..|actions| - 1];
      AfterRead(s, init, idle);
      StepKeeps(Runs(s, init, idle).value, actions[|actions| - 1], idle);
    }
  }

  lemma Totals(s: State, idle: nat)
    requires Inv(s, idle)
    ensures Starts(s) - Stops(s) == (if s.core.typing then 1 else 0) - if s.read == Some(true) then 1 else 0
  {
  }

  lemma LatePoll(s: State, idle: nat) returns (actions: seq<Action>)
    requires s.run.Asleep? && s.core.typing && s.read == Some(true)
    ensures Runs(s, actions, idle).Some?
    ensures var t := Runs(s, actions, idle).value; !t.core.typing && t.read == Some(true)
  {
    actions := [Tick(s.run.until + s.core.last + idle), Check];
    assert actions[..1] == [actions[0]];
    var later := s.(now := s.now + s.run.until + s.core.last + idle);
    assert Runs(s, [actions[0]], idle) == Some(later) by {
      assert [actions[0]][..0] == [];
    }
  }

  /** A shutdown balances starts and stops, however the rest of the run goes, if and only if it did not
      read a set flag while the polling thread was still asleep, its wait for that thread having timed
      out. That one case can send the closing stop twice. */
  lemma ShutdownBalances(r: State, s: State, idle: nat)
    requires Reaches(r, idle) && Step(r, ReadFlag, idle) == Some(s)
    ensures (forall actions | Runs(s, actions, idle).Some? ::
               Starts(Runs(s, actions, idle).value) == Stops(Runs(s, actions, idle).value))
            <==> !(r.run.Asleep? && r.core.typing)
  {
    ReachableInv(r, idle);
    StepKeeps(r, ReadFlag, idle);
    assert s.read == Some(s.core.typing) && s.run == r.run && s.core == r.core;
    hide Step, Inv;
    if r.run.Asleep? && r.core.typing {
      var actions := LatePoll(s, idle);
      RunsKeep(s, actions, idle);
      Totals(Runs(s, actions, idle).value, idle);
    } else {
      forall actions | Runs(s, actions, idle).Some?
        ensures Starts(Runs(s, actions, idle).value) == Stops(Runs(s, actions, idle).value)
      {
        AfterRead(s, actions, idle);
        Totals(Runs(s, actions, idle).value, idle);
      }
    }
  }

  // ---- the order of delivery --------------------------------------------------------

  /** Notifications have been delivered in the order the flag changed. */
  ghost predicate InOrder(s: State) {
    |s.sent| <= |s.flips| && forall i | 0 <= i < |s.sent| :: s.sent[i] == s.flips[i].on
  }

  lemma {:induction false} CountAlternating(sent: seq<bool>)
    requires forall i | 0 <= i < |sent| :: sent[i] == (i % 2 == 0)
    ensures Count(sent, true) + Count(sent, false) == |sent| && Count(sent, true) - Count(sent, false) == |sent| % 2
  {
    if sent != [] {
      CountAlternating(sent[..|sent| - 1]);
    }
  }

  lemma InFlight(s: State, idle: nat)
    requires Inv(s, idle) && s.read == None && InOrder(s)
    ensures |s.flips| == |s.sent| + (if s.main.Starting? then 1 else 0) + if s.run.Stopping? then 1 else 0
    ensures s.main.Starting? && !s.run.Stopping? ==> s.flips[|s.sent|].on
    ensures s.run.Stopping? && !s.main.Starting? ==> !s.flips[|s.sent|].on
  {
    CountAlternating(s.sent);
    hide KeysOk, FlipsOk, StartOk, Count, LatestOn;
  }

  predicate Overlap(s: State) {
    s.main.Starting? && s.run.Stopping?
  }

  /** What a step delivers: a start that was in flight, a stop that was, or nothing. */
  lemma StepDelivers(s: State, a: Action, idle: nat)
    requires MainOk(s) && s.read == None && Step(s, a, idle).Some?
    ensures s.flips <= Step(s, a, idle).value.flips
    ensures var t := Step(s, a, idle).value;
            || t.sent == s.sent
            || (s.main.Starting? && t.sent == s.sent + [true])
            || (s.run.Stopping? && t.sent == s.sent + [false])
  {
    hide KeyRegion, CheckRegion;
  }

  lemma OrderKept(s: State, a: Action, idle: nat)
    requires Inv(s, idle) && s.read == None && InOrder(s) && Step(s, a, idle).Some?
    requires !Overlap(s)
    ensures InOrder(Step(s, a, idle).value)
  {
    InFlight(s, idle);
    assert MainOk(s);
    hide Inv, MainOk, Step;
    StepDelivers(s, a, idle);
  }

  lemma OrderBroken(s: State, idle: nat) returns (a: Action)
    requires Inv(s, idle) && s.read == None && InOrder(s) && Overlap(s)
    ensures Step(s, a, idle).Some? && !InOrder(Step(s, a, idle).value)
  {
    InFlight(s, idle);
    hide Inv, Alternates, SendsOk, KeysOk, FlipsOk, StartOk;
    a := if s.flips[|s.sent|].on then SendStop else SendStart;
    var t := Step(s, a, idle).value;
    assert t.sent[|s.sent|] != t.flips[|s.sent|].on;
  }

  /** The next step can break the order if and only if a start and a stop are in flight together. */
  lemma OvertakingStep(s: State, idle: nat)
    requires Reaches(s, idle) && s.read == None && InOrder(s)
    ensures (exists a :: Step(s, a, idle).Some? && !InOrder(Step(s, a, idle).value)) <==> Overlap(s)
  {
    ReachableInv(s, idle);
    hide Inv, Step, InOrder, Reaches;
    if Overlap(s) {
      var a := OrderBroken(s, idle);
    } else {
      forall a | Step(s, a, idle).Some? ensures InOrder(Step(s, a, idle).value) {
        OrderKept(s, a, idle);
      }
    }
  }

  /** Once nothing is in flight, the last notification says what the flag says. */
  lemma LastSaysFlag(s: State, idle: nat)
    requires Inv(s, idle) && s.read == None && InOrder(s)
    ensures !s.main.Starting? && !s.run.Stopping? ==> (s.core.typing <==> s.sent != [] && s.sent[|s.sent| - 1])
  {
    InFlight(s, idle);
    assert Alternates(s.core, s.flips);
    hide Inv, SendsOk, MainOk;
    if !s.main.Starting? && !s.run.Stopping? && s.sent != [] {
      var last := |s.sent| - 1;
      assert s.sent[last] == s.flips[last].on == (last % 2 == 0);
      ParityStep(last);
    }
  }

  lemma ParityStep(n: nat)
    ensures (n % 2 == 0) == ((n + 1) % 2 == 1)
  {
  }

  lemma ReadStays(s: State, a: Action, idle: nat)
    requires Step(s, a, idle).Some? && Step(s, a, idle).value.read == None
    ensures s.read == None
  {
  }

  /** The notifications as the capture client handles them. */
  function Heard(sent: seq<bool>): (r: seq<Capture.Event>)
    ensures |r| == |sent| && forall i | 0 <= i < |sent| :: r[i] == Capture.TypingEvent(sent[i])
  {
    seq(|sent|, i requires 0 <= i < |sent| => Capture.TypingEvent(sent[i]))
  }

  /** Without queries, the client's mode is what it heard last. */
  lemma ModeIsLastHeard(sent: seq<bool>)
    ensures Capture.ModeAfter(Heard(sent)) == if sent != [] && sent[|sent| - 1] then Capture.Typing else Capture.Idle
  {
    Capture.ModeIsHistorical(Heard(sent));
  }

  /** Where sends never overlap, what is delivered follows the flag: in the order of its changes, so that
      whenever nothing is in flight the client is in typing mode exactly when the flag is set. */
  lemma {:induction false} SeparateSendsFollowFlag(actions: seq<Action>, idle: nat)
    requires Runs(INIT, actions, idle).Some? && Runs(INIT, actions, idle).value.read == None
    requires forall i | 0 <= i < |actions| ::
               Runs(INIT, actions[..i], idle).Some? ==> !Overlap(Runs(INIT, actions[..i], idle).value)
    ensures var s := Runs(INIT, actions, idle).value;
            && InOrder(s)
            && (!s.main.Starting? && !s.run.Stopping? ==>
                  Capture.ModeAfter(Heard(s.sent)) == if s.core.typing then Capture.Typing else Capture.Idle)
  {
    var s := Runs(INIT, actions, idle).value;
    ReachableInv(s, idle);
    if actions == [] {
      assert InOrder(INIT);
    } else {
      var init, a := actions[..|actions| - 1], actions[|actions| - 1];
      assert Runs(INIT, init, idle).Some?;
      var before := Runs(INIT, init, idle).value;
      hide Step, Inv, InOrder;
      ReadStays(before, a, idle);
      assert !Overlap(before);
      forall i | 0 <= i < |init|
        ensures Runs(INIT, init[..i], idle).Some? ==> !Overlap(Runs(INIT, init[..i], idle).value) {
        assert init[..i] == actions[..i];
      }
      SeparateSendsFollowFlag(init, idle);
      RunsKeep(INIT, init, idle);
      OrderKept(before, a, idle);
    }
    LastSaysFlag(s, idle);
    ModeIsLastHeard(s.sent);
  }

  // ---- runs that break it -----------------------------------------------------------

  lemma Hop(s: State, a: Action, idle: nat)
    requires Reaches(s, idle) && Step(s, a, idle).Some?
    ensures Reaches(Step(s, a, idle).value, idle)
  {
    var actions :| Runs(INIT, actions, idle) == Some(s);
    assert (actions + [a])[..|actions|] == actions;
    assert Runs(INIT, actions + [a], idle) == Step(s, a, idle);
  }

  lemma Start(idle: nat)
    ensures Reaches(INIT, idle)
  {
    assert Runs(INIT, [], idle) == Some(INIT);
  }

  lemma OpenBurst(idle: nat) returns (s: State)
    ensures Reaches(s, idle)
    ensures s == INIT.(core := Core(true, 0, Some(0)), main := Starting, run := Asleep(NAP),
                      keys := [0], flips := [Flip(true, 0, 1)])
  {
    hide Reaches;
    Start(idle);
    Hop(INIT, KeyBegin, idle);
    var s1 := Step(INIT, KeyBegin, idle).value;
    Hop(s1, KeyLock, idle);
    var s2 := Step(s1, KeyLock, idle).value;
    Hop(s2, CheckStop, idle);
    s := Step(s2, CheckStop, idle).value;
  }

  /** A start held up until the poll has timed the burst out is delivered after the stop: everything is
      quiet, the flag is off, and the client, having heard of typing last, captures in typing mode. */
  lemma StopOvertakesStart(idle: nat) returns (s: State)
    ensures Reaches(s, idle) && !s.core.typing && s.main.Free? && s.run.Head?
    ensures s.sent == [false, true] && Capture.ModeAfter(Heard(s.sent)) == Capture.Typing
  {
    var s0 := OpenBurst(idle);
    hide Reaches;
    Hop(s0, Tick(NAP + idle), idle);
    var s1 := Step(s0, Tick(NAP + idle), idle).value;
    Hop(s1, Check, idle);
    var s2 := Step(s1, Check, idle).value;
    Hop(s2, SendStop, idle);
    var s3 := Step(s2, SendStop, idle).value;
    Hop(s3, SendStart, idle);
    s := Step(s3, SendStart, idle).value;
    ModeIsLastHeard(s.sent);
  }

  /** A shutdown whose wait timed out on a polling thread that overslept: one start, two stops. */
  lemma ShutdownStopsTwice(idle: nat) returns (s: State)
    ensures Reaches(s, idle) && s.main.Closed? && s.run.Exited?
    ensures s.sent == [true, false, false]
  {
    var s0 := OpenBurst(idle);
    hide Reaches;
    Hop(s0, SendStart, idle);
    var s1 := Step(s0, SendStart, idle).value;
    Hop(s1, Shutdown, idle);
    var s2 := Step(s1, Shutdown, idle).value;
    Hop(s2, Tick(JOIN_TIMEOUT + idle), idle);
    var s3 := Step(s2, Tick(JOIN_TIMEOUT + idle), idle).value;
    Hop(s3, ReadFlag, idle);
    var s4 := Step(s3, ReadFlag, idle).value;
    Hop(s4, Check, idle);
    var s5 := Step(s4, Check, idle).value;
    Hop(s5, SendLast, idle);
    var s6 := Step(s5, SendLast, idle).value;
    Hop(s6, SendStop, idle);
    var s7 := Step(s6, SendStop, idle).value;
    Hop(s7, CheckStop, idle);
    s := Step(s7, CheckStop, idle).value;
  }

  // ---- the object -------------------------------------------------------------------

  /** What the polling thread meets in one pass: whether it has been told to stop, and the clock. */
  datatype Pass = Pass(stopSet: bool, now: nat)

  /** Some pass finds that the last keystroke is at least the idle time away. */
  ghost predicate Due(passes: seq<Pass>, last: nat, idle: nat) {
    exists i | 0 <= i < |passes| :: passes[i].now - last >= idle
  }

  class TypingDebouncer {
    const idle: nat
    var typing: bool
    var lastKeystroke: nat
    var typingStartUs: Option<nat>
    var sent: seq<bool>

    ghost function View(): Core
      reads this
    {
      Core(typing, lastKeystroke, typingStartUs)
    }

    constructor (idle: nat)
      ensures this.idle == idle && View() == INIT.core && sent == []
    {
      this.idle := idle;
      typing, lastKeystroke, typingStartUs, sent := false, 0, None, [];
    }

    method Send(isTyping: bool)
      modifies this`sent
      ensures sent == old(sent) + [isTyping]
    {
      sent := sent + [isTyping];
    }

    /** A keystroke captured at `now`, with no poll between its lock region and its notification. */
    method Keystroke(now: nat, wall: nat)
      modifies this
      ensures View() == KeyRegion(old(View()), now, wall)
      ensures sent == if old(typing) then old(sent) else old(sent) + [true]
    {
      var notifyStart := false;
      lastKeystroke := now;
      if !typing {
        typing := true;
        typingStartUs := Some(wall);
        notifyStart := true;
      }
      if notifyStart {
        Send(true);
      }
    }

    /** The poll's lock region. */
    method PollRegion(now: nat) returns (notify: bool)
      modifies this`typing
      ensures View() == CheckRegion(old(View()), now, idle)
      ensures notify <==> old(typing) && !typing
    {
      if typing && now - lastKeystroke >= idle {
        typing := false;
        notify := true;
      } else {
        notify := false;
      }
    }

    /** The polling thread, undisturbed by keystrokes, over a finite script of passes of which it makes
        `used`. It stops at the first pass that finds the stop event set, and over all of them sends at
        most one stop: exactly when the flag was set and some pass came late enough. */
    method RunLoop(passes: seq<Pass>) returns (used: nat)
      modifies this`typing, this`sent
      ensures used <= |passes| && forall i | 0 <= i < used :: !passes[i].stopSet
      ensures used < |passes| ==> passes[used].stopSet
      ensures typing <==> old(typing) && !Due(passes[..used], lastKeystroke, idle)
      ensures sent == if old(typing) && !typing then old(sent) + [false] else old(sent)
    {
      used := 0;
      while used < |passes| && !passes[used].stopSet
        invariant used <= |passes| && forall i | 0 <= i < used :: !passes[i].stopSet
        invariant typing <==> old(typing) && !Due(passes[..used], lastKeystroke, idle)
        invariant sent == if old(typing) && !typing then old(sent) + [false] else old(sent)
      {
        var now := passes[used].now;
        assert passes[..used + 1][used].now == now;
        assert forall i | 0 <= i < used :: passes[..used + 1][i] == passes[..used][i];
        var notify := PollRegion(now);
        if notify {
          Send(false);
        }
        used := used + 1;
      }
    }

    /** The part of shutdown after its wait, taken in one go from any state `s` of the two threads that lets
        it read the flag: it takes the machine's steps, and what has then been sent has as many stops as
        starts, but for one stop the polling thread may still be sending. */
    method FinishShutdown(ghost s: State)
      requires Step(s, ReadFlag, idle).Some? && s.core == View() && s.sent == sent
      modifies this`sent
      ensures var t := Step(s, ReadFlag, idle).value;
              if typing then Step(t, SendLast, idle).Some? && sent == Step(t, SendLast, idle).value.sent
              else t.main.Closed? && sent == t.sent
      ensures Inv(s, idle) ==> Count(sent, true) == Count(sent, false) + if s.run.Stopping? then 1 else 0
    {
      if typing {
        Send(false);
      }
      if Inv(s, idle) {
        ClosesBalanced(s, idle);
      }
    }
  }

  lemma ClosesBalanced(s: State, idle: nat)
    requires Inv(s, idle) && Step(s, ReadFlag, idle).Some?
    ensures var sent := if s.core.typing then s.sent + [false] else s.sent;
            Count(sent, true) == Count(sent, false) + if s.run.Stopping? then 1 else 0
  {
    CountSnoc(s.sent, false, true);
    CountSnoc(s.sent, false, false);
    Totals(s, idle);
    assert MainOk(s);
    hide Inv, Count;
  }
}
