/** The capture pipeline's grab loop: tick schedule, capture-mode gating, forced emission and frame
    numbering, with the other threads' steps interleaved between the loop's own. */
module GrabLoop {
  import opened Arithmetic
  import opened CaptureMode
  import Scd = SceneChange
  import Aff = AdaptiveFilter

  const SECOND: nat := Aff.SECOND

  datatype Config = Config(grabFps: real, scd: Scd.Config, aff: Aff.Config)

  predicate ProperConfig(cfg: Config) {
    cfg.grabFps > 0.0 && cfg.aff.pixels > 0
  }

  function GrabInterval(cfg: Config): nat
    requires cfg.grabFps > 0.0
  {
    (SECOND as real / cfg.grabFps).Floor
  }

  /** A step of another thread: a store to the mode, or one filter's reset. */
  datatype Poke = StoreMode(mode: Mode) | ResetScd | ResetAff

  /** What one iteration meets: the steps other threads take between its own, how long things
      take, whether the grab, the connection and the reconnection succeed, and the frame. */
  datatype Round = Round(
    atTop: seq<Poke>, grabbed: bool, grabTime: nat,
    shot: Scd.Frame, gray: Aff.Gray, sharpness: real,
    beforeGate: seq<Poke>, gateTime: nat,
    beforeFilter: seq<Poke>, filterTime: nat,
    connected: bool, reconnects: bool, connectTime: nat, sendTime: nat, oversleep: nat)

  ghost predicate ProperRounds(cfg: Config, rounds: seq<Round>) {
    forall i | 0 <= i < |rounds| :: |rounds[i].gray| == cfg.aff.pixels
  }

  /** Clock, schedule and counters, with the logs of both filters. `forced` holds the times of the
      forced decisions, `sent` the numbers handed to the sender, `lost` the emissions that found no connection. */
  datatype Loop = Loop(
    now: nat, nextTick: nat, lastForced: nat, mode: Mode, seqNo: nat,
    scdLog: seq<Scd.Event>, affLog: seq<Aff.Event>,
    forced: seq<nat>, sent: seq<nat>, lost: nat)

  function LastStored(mode: Mode, pokes: seq<Poke>): Mode {
    if pokes == [] then mode
    else match pokes[|pokes| - 1]
         case StoreMode(m) => m
         case _ => LastStored(mode, pokes[..|pokes| - 1])
  }

  function ScdResets(pokes: seq<Poke>): seq<Scd.Event> {
    if pokes == [] then []
    else ScdResets(pokes[..|pokes| - 1]) + if pokes[|pokes| - 1].ResetScd? then [Scd.Cleared] else []
  }

  function AffResets(pokes: seq<Poke>, now: nat): seq<Aff.Event> {
    if pokes == [] then []
    else AffResets(pokes[..|pokes| - 1], now) + if pokes[|pokes| - 1].ResetAff? then [Aff.Cleared(now)] else []
  }

  /** Other threads touch the mode and the two filters, and nothing else of the loop. */
  function Interfere(L: Loop, pokes: seq<Poke>): Loop {
    L.(mode := LastStored(L.mode, pokes),
       scdLog := L.scdLog + ScdResets(pokes),
       affLog := L.affLog + AffResets(pokes, L.now))
  }

  /** `sleep_until(next_tick)`: no sleep when the schedule is already behind. */
  function Sleep(L: Loop, oversleep: nat): Loop {
    L.(now := if L.now < L.nextTick then L.nextTick + oversleep else L.now)
  }

  function Deliver(L: Loop, r: Round): Loop {
    if !r.connected && !r.reconnects then L.(now := L.now + r.connectTime, lost := L.lost + 1)
    else
      var n := (L.seqNo + 1) % TWO64;
      L.(now := L.now + r.connectTime + r.sendTime, seqNo := n, sent := L.sent + [n])
  }

  /** The state when a gate has decided at `L` to consult the filter, just before it does. */
  function AtFilter(L: Loop, r: Round): Loop {
    Interfere(L.(now := L.now + r.filterTime), r.beforeFilter)
  }

  predicate ForcedDue(L: Loop) {
    L.lastForced == 0 || L.now - L.lastForced >= SECOND
  }

  function ForcedDecision(L: Loop): Loop {
    L.(lastForced := L.now, forced := L.forced + [L.now])
  }

  function ForcedCall(L: Loop, gray: Aff.Gray): Loop {
    L.(affLog := L.affLog + [Aff.Forced(L.now, gray)])
  }

  function ForcedGate(L: Loop, r: Round): Loop {
    if ForcedDue(L) then Deliver(ForcedCall(AtFilter(ForcedDecision(L), r), r.gray), r) else L
  }

  function ScdCall(L: Loop, shot: Scd.Frame): Loop {
    L.(scdLog := L.scdLog + [Scd.Checked(shot)])
  }

  function IdleCall(L: Loop, r: Round): Loop {
    L.(affLog := L.affLog + [Aff.Evaluated(L.now, r.gray, r.sharpness)])
  }

  ghost function FilterGate(cfg: Config, L: Loop, r: Round): Loop
    requires Aff.ProperLog(cfg.aff, L.affLog) && L.now > 0 && |r.gray| == cfg.aff.pixels > 0
  {
    if Aff.Decide(cfg.aff, Aff.After(cfg.aff, L.affLog), Aff.Evaluated(L.now, r.gray, r.sharpness)) == Aff.Accept
    then Deliver(IdleCall(L, r), r) else IdleCall(L, r)
  }

  ghost function IdleGate(cfg: Config, L: Loop, r: Round): Loop
    requires ProperConfig(cfg) && Sound(cfg, L) && |r.gray| == cfg.aff.pixels
  {
    var checked := ScdCall(L, r.shot);
    if Scd.Decide(cfg.scd, Scd.After(cfg.scd, L.scdLog), r.shot) then
      AtFilterSound(cfg, checked, r);
      FilterGate(cfg, AtFilter(checked, r), r)
    else checked
  }

  /** The state in which the iteration loads the mode. */
  function AtModeLoad(cfg: Config, L: Loop, r: Round): Loop
    requires ProperConfig(cfg)
  {
    Interfere(L.(nextTick := L.nextTick + GrabInterval(cfg), now := L.now + r.grabTime), r.atTop)
  }

  function AtGate(top: Loop, r: Round): Loop {
    Interfere(top.(now := top.now + r.gateTime), r.beforeGate)
  }

  lemma LoadSound(cfg: Config, L: Loop, r: Round)
    requires ProperConfig(cfg) && Sound(cfg, L)
    ensures Sound(cfg, AtModeLoad(cfg, L, r))
  {
    InterfereSound(cfg, L.(nextTick := L.nextTick + GrabInterval(cfg), now := L.now + r.grabTime), r.atTop);
  }

  lemma AtGateSound(cfg: Config, top: Loop, r: Round)
    requires Sound(cfg, top)
    ensures Sound(cfg, AtGate(top, r))
  {
    InterfereSound(cfg, top.(now := top.now + r.gateTime), r.beforeGate);
  }

  lemma GateSound(cfg: Config, L: Loop, r: Round)
    requires ProperConfig(cfg) && Sound(cfg, L)
    ensures Sound(cfg, AtModeLoad(cfg, L, r)) && Sound(cfg, AtGate(AtModeLoad(cfg, L, r), r))
  {
    LoadSound(cfg, L, r);
    AtGateSound(cfg, AtModeLoad(cfg, L, r), r);
  }

  /** One iteration of the loop. */
  ghost function Iterate(cfg: Config, L: Loop, r: Round): Loop
    requires ProperConfig(cfg) && Sound(cfg, L) && |r.gray| == cfg.aff.pixels
  {
    GateSound(cfg, L, r);
    var top := AtModeLoad(cfg, L, r);
    Sleep(if !r.grabbed then top
          else if top.mode != Idle then ForcedGate(AtGate(top, r), r)
          else IdleGate(cfg, AtGate(top, r), r),
          r.oversleep)
  }

  ghost function RunRounds(cfg: Config, L: Loop, rounds: seq<Round>): (r: Loop)
    requires ProperConfig(cfg) && Sound(cfg, L) && ProperRounds(cfg, rounds)
    ensures Sound(cfg, r)
    decreases |rounds|
  {
    if rounds == [] then L
    else
      var M := RunRounds(cfg, L, rounds[..|rounds| - 1]);
      IterateSound(cfg, M, rounds[|rounds| - 1]);
      Iterate(cfg, M, rounds[|rounds| - 1])
  }

  // ---- what every iteration keeps ---------------------------------------------------

  /** Forced decisions are at least a second apart and the last one is remembered. */
  ghost predicate ForcedSpaced(L: Loop) {
    && (forall i | 0 <= i < |L.forced| - 1 :: L.forced[i + 1] - L.forced[i] >= SECOND)
    && (if L.forced == [] then L.lastForced == 0 else L.lastForced == L.forced[|L.forced| - 1] > 0)
    && L.lastForced <= L.now
  }

  /** Both filter logs are well-formed and in time order. */
  ghost predicate Sound(cfg: Config, L: Loop) {
    L.now > 0 && LogSound(cfg, L.affLog, L.now) && ForcedSpaced(L)
  }

  ghost predicate LogSound(cfg: Config, log: seq<Aff.Event>, now: nat) {
    Aff.ProperLog(cfg.aff, log) && InOrder(log, now)
  }

  ghost predicate InOrder(log: seq<Aff.Event>, now: nat) {
    log == [] || (log[|log| - 1].now <= now && InOrder(log[..|log| - 1], log[|log| - 1].now))
  }

  lemma {:induction false} InOrderMeans(log: seq<Aff.Event>, now: nat)
    requires InOrder(log, now)
    ensures Aff.Ordered(log) && forall i | 0 <= i < |log| :: log[i].now <= now
  {
    if log != [] {
      InOrderMeans(log[..|log| - 1], log[|log| - 1].now);
    }
  }

  lemma LogSoundAppend(cfg: Config, log: seq<Aff.Event>, e: Aff.Event)
    requires LogSound(cfg, log, e.now) && Aff.Proper(cfg.aff, e)
    ensures LogSound(cfg, log + [e], e.now)
  {
    assert (log + [e])[..|log|] == log;
  }

  lemma {:induction false} ResetsSound(cfg: Config, log: seq<Aff.Event>, pokes: seq<Poke>, now: nat)
    requires LogSound(cfg, log, now) && now > 0
    ensures LogSound(cfg, log + AffResets(pokes, now), now)
  {
    if pokes == [] {
      assert log + AffResets(pokes, now) == log;
    } else {
      var before := log + AffResets(pokes[..|pokes| - 1], now);
      ResetsSound(cfg, log, pokes[..|pokes| - 1], now);
      LogSoundAppend(cfg, before, Aff.Cleared(now));
      assert log + AffResets(pokes, now) == before + if pokes[|pokes| - 1].ResetAff? then [Aff.Cleared(now)] else [];
      assert before + [] == before;
    }
  }

  lemma InterfereSound(cfg: Config, L: Loop, pokes: seq<Poke>)
    requires Sound(cfg, L)
    ensures Sound(cfg, Interfere(L, pokes))
  {
    ResetsSound(cfg, L.affLog, pokes, L.now);
  }

  lemma AtFilterSound(cfg: Config, L: Loop, r: Round)
    requires Sound(cfg, L)
    ensures Sound(cfg, AtFilter(L, r))
  {
    InterfereSound(cfg, L.(now := L.now + r.filterTime), r.beforeFilter);
  }

  lemma ForcedDecisionSound(cfg: Config, L: Loop)
    requires Sound(cfg, L) && ForcedDue(L)
    ensures Sound(cfg, ForcedDecision(L))
  {
  }

  lemma ForcedGateSound(cfg: Config, L: Loop, r: Round)
    requires Sound(cfg, L) && |r.gray| == cfg.aff.pixels > 0
    ensures Sound(cfg, ForcedGate(L, r))
  {
    if ForcedDue(L) {
      ForcedDecisionSound(cfg, L);
      AtFilterSound(cfg, ForcedDecision(L), r);
      var M := AtFilter(ForcedDecision(L), r);
      LogSoundAppend(cfg, M.affLog, Aff.Forced(M.now, r.gray));
    }
  }

  lemma FilterGateSound(cfg: Config, L: Loop, r: Round)
    requires Sound(cfg, L) && |r.gray| == cfg.aff.pixels > 0
    ensures Sound(cfg, FilterGate(cfg, L, r))
  {
    LogSoundAppend(cfg, L.affLog, Aff.Evaluated(L.now, r.gray, r.sharpness));
  }

  lemma IdleGateSound(cfg: Config, L: Loop, r: Round)
    requires ProperConfig(cfg) && Sound(cfg, L) && |r.gray| == cfg.aff.pixels
    ensures Sound(cfg, IdleGate(cfg, L, r))
  {
    AtFilterSound(cfg, ScdCall(L, r.shot), r);
    FilterGateSound(cfg, AtFilter(ScdCall(L, r.shot), r), r);
  }

  lemma SleepSound(cfg: Config, L: Loop, oversleep: nat)
    requires Sound(cfg, L)
    ensures Sound(cfg, Sleep(L, oversleep))
  {
  }

  lemma IterateSound(cfg: Config, L: Loop, r: Round)
    requires ProperConfig(cfg) && Sound(cfg, L) && |r.gray| == cfg.aff.pixels
    ensures Sound(cfg, Iterate(cfg, L, r))
  {
    GateSound(cfg, L, r);
    var top := AtModeLoad(cfg, L, r);
    if !r.grabbed {
      SleepSound(cfg, top, r.oversleep);
    } else if top.mode != Idle {
      ForcedGateSound(cfg, AtGate(top, r), r);
      SleepSound(cfg, ForcedGate(AtGate(top, r), r), r.oversleep);
    } else {
      IdleGateSound(cfg, AtGate(top, r), r);
      SleepSound(cfg, IdleGate(cfg, AtGate(top, r), r), r.oversleep);
    }
  }

  // ---- conservation -----------------------------------------------------------------

  /** The filter, after `log`, lets the frame of call `e` through. */
  ghost predicate LetsThrough(cfg: Config, log: seq<Aff.Event>, e: Aff.Event)
    requires Aff.ProperLog(cfg.aff, log) && Aff.Proper(cfg.aff, e)
  {
    e.Forced? || (e.Evaluated? && Aff.Decide(cfg.aff, Aff.After(cfg.aff, log), e) == Aff.Accept)
  }

  ghost function Emissions(cfg: Config, log: seq<Aff.Event>): nat
    requires Aff.ProperLog(cfg.aff, log)
  {
    if log == [] then 0
    else Emissions(cfg, log[..|log| - 1]) + (if LetsThrough(cfg, log[..|log| - 1], log[|log| - 1]) then 1 else 0)
  }

  function Evaluations(log: seq<Aff.Event>): nat {
    if log == [] then 0 else Evaluations(log[..|log| - 1]) + (if log[|log| - 1].Evaluated? then 1 else 0)
  }

  function ForcedCalls(log: seq<Aff.Event>): nat {
    if log == [] then 0 else ForcedCalls(log[..|log| - 1]) + (if log[|log| - 1].Forced? then 1 else 0)
  }

  function Checks(log: seq<Scd.Event>): nat {
    if log == [] then 0 else Checks(log[..|log| - 1]) + (if log[|log| - 1].Checked? then 1 else 0)
  }

  /** The detector, after `log`, declares the frame of call `e` a change. */
  ghost predicate DeclaresChange(cfg: Config, log: seq<Scd.Event>, e: Scd.Event) {
    e.Checked? && Scd.Decide(cfg.scd, Scd.After(cfg.scd, log), e.frame)
  }

  ghost function Changes(cfg: Config, log: seq<Scd.Event>): nat {
    if log == [] then 0
    else Changes(cfg, log[..|log| - 1]) + (if DeclaresChange(cfg, log[..|log| - 1], log[|log| - 1]) then 1 else 0)
  }

  /** Every frame that was let through was numbered and handed to the sender, or met a dead
      connection; every forced decision reached the filter; and the idle filter sees exactly the
      frames the scene-change detector declared changes. */
  ghost predicate Accounted(cfg: Config, L: Loop)
    requires Aff.ProperLog(cfg.aff, L.affLog)
  {
    && |L.sent| + L.lost == Emissions(cfg, L.affLog)
    && |L.forced| == ForcedCalls(L.affLog)
    && Changes(cfg, L.scdLog) == Evaluations(L.affLog)
  }

  lemma AppendCounts(cfg: Config, log: seq<Aff.Event>, e: Aff.Event)
    requires Aff.ProperLog(cfg.aff, log) && Aff.Proper(cfg.aff, e)
    ensures Aff.ProperLog(cfg.aff, log + [e])
    ensures Emissions(cfg, log + [e]) == Emissions(cfg, log) + (if LetsThrough(cfg, log, e) then 1 else 0)
    ensures Evaluations(log + [e]) == Evaluations(log) + (if e.Evaluated? then 1 else 0)
    ensures ForcedCalls(log + [e]) == ForcedCalls(log) + (if e.Forced? then 1 else 0)
  {
    assert (log + [e])[..|log|] == log;
  }

  lemma AppendChecks(cfg: Config, log: seq<Scd.Event>, e: Scd.Event)
    ensures Changes(cfg, log + [e]) == Changes(cfg, log) + (if DeclaresChange(cfg, log, e) then 1 else 0)
    ensures Checks(log + [e]) == Checks(log) + (if e.Checked? then 1 else 0)
  {
    assert (log + [e])[..|log|] == log;
  }

  ghost predicate SameCounts(cfg: Config, L: Loop, M: Loop)
    requires Aff.ProperLog(cfg.aff, L.affLog) && Aff.ProperLog(cfg.aff, M.affLog)
  {
    && Emissions(cfg, M.affLog) == Emissions(cfg, L.affLog)
    && ForcedCalls(M.affLog) == ForcedCalls(L.affLog)
    && Evaluations(M.affLog) == Evaluations(L.affLog)
    && Changes(cfg, M.scdLog) == Changes(cfg, L.scdLog)
    && Checks(M.scdLog) == Checks(L.scdLog)
  }

  lemma {:induction false} ResetCounts(cfg: Config, log: seq<Aff.Event>, pokes: seq<Poke>, now: nat)
    requires LogSound(cfg, log, now) && now > 0
    ensures var after := log + AffResets(pokes, now);
            && LogSound(cfg, after, now)
            && Emissions(cfg, after) == Emissions(cfg, log)
            && ForcedCalls(after) == ForcedCalls(log)
            && Evaluations(after) == Evaluations(log)
  {
    if pokes == [] {
      assert log + AffResets(pokes, now) == log;
    } else {
      var init := pokes[..|pokes| - 1];
      ResetCounts(cfg, log, init, now);
      var before := log + AffResets(init, now);
      if pokes[|pokes| - 1].ResetAff? {
        LogSoundAppend(cfg, before, Aff.Cleared(now));
        AppendCounts(cfg, before, Aff.Cleared(now));
        assert log + AffResets(pokes, now) == before + [Aff.Cleared(now)];
      } else {
        assert log + AffResets(pokes, now) == before;
      }
    }
  }

  lemma {:induction false} ClearedCounts(cfg: Config, log: seq<Scd.Event>, pokes: seq<Poke>)
    ensures Changes(cfg, log + ScdResets(pokes)) == Changes(cfg, log)
    ensures Checks(log + ScdResets(pokes)) == Checks(log)
  {
    if pokes == [] {
      assert log + ScdResets(pokes) == log;
    } else {
      var init := pokes[..|pokes| - 1];
      ClearedCounts(cfg, log, init);
      var before := log + ScdResets(init);
      AppendChecks(cfg, before, Scd.Cleared);
      assert log + ScdResets(pokes) == before + if pokes[|pokes| - 1].ResetScd? then [Scd.Cleared] else [];
      if !pokes[|pokes| - 1].ResetScd? {
        assert before + [] == before;
      }
    }
  }

  lemma InterfereCounts(cfg: Config, L: Loop, pokes: seq<Poke>)
    requires Sound(cfg, L)
    ensures Sound(cfg, Interfere(L, pokes)) && SameCounts(cfg, L, Interfere(L, pokes))
  {
    ResetCounts(cfg, L.affLog, pokes, L.now);
    ClearedCounts(cfg, L.scdLog, pokes);
  }

  lemma AtFilterAccounted(cfg: Config, L: Loop, r: Round)
    requires Sound(cfg, L)
    ensures Sound(cfg, AtFilter(L, r)) && SameCounts(cfg, L, AtFilter(L, r))
    ensures var M := AtFilter(L, r); M.sent == L.sent && M.lost == L.lost && M.forced == L.forced
  {
    AtFilterSound(cfg, L, r);
    InterfereCounts(cfg, L.(now := L.now + r.filterTime), r.beforeFilter);
  }

  lemma ForcedGateAccounted(cfg: Config, L: Loop, r: Round)
    requires Sound(cfg, L) && |r.gray| == cfg.aff.pixels > 0 && Accounted(cfg, L)
    ensures Aff.ProperLog(cfg.aff, ForcedGate(L, r).affLog) && Accounted(cfg, ForcedGate(L, r))
    ensures Checks(ForcedGate(L, r).scdLog) == Checks(L.scdLog)
  {
    if ForcedDue(L) {
      ForcedDecisionSound(cfg, L);
      AtFilterAccounted(cfg, ForcedDecision(L), r);
      var M := AtFilter(ForcedDecision(L), r);
      AppendCounts(cfg, M.affLog, Aff.Forced(M.now, r.gray));
    }
  }

  lemma IdleGateAccounted(cfg: Config, L: Loop, r: Round)
    requires ProperConfig(cfg) && Sound(cfg, L) && |r.gray| == cfg.aff.pixels && Accounted(cfg, L)
    ensures Aff.ProperLog(cfg.aff, IdleGate(cfg, L, r).affLog) && Accounted(cfg, IdleGate(cfg, L, r))
    ensures IdleGate(cfg, L, r).forced == L.forced
  {
    AppendChecks(cfg, L.scdLog, Scd.Checked(r.shot));
    AtFilterAccounted(cfg, ScdCall(L, r.shot), r);
    var M := AtFilter(ScdCall(L, r.shot), r);
    AppendCounts(cfg, M.affLog, Aff.Evaluated(M.now, r.gray, r.sharpness));
  }

  lemma LoadAccounted(cfg: Config, L: Loop, r: Round)
    requires ProperConfig(cfg) && Sound(cfg, L) && Accounted(cfg, L)
    ensures var M := AtModeLoad(cfg, L, r);
            Sound(cfg, M) && Accounted(cfg, M) && M.forced == L.forced && Checks(M.scdLog) == Checks(L.scdLog)
  {
    var start := L.(nextTick := L.nextTick + GrabInterval(cfg), now := L.now + r.grabTime);
    InterfereCounts(cfg, start, r.atTop);
  }

  lemma GateAccounted(cfg: Config, top: Loop, r: Round)
    requires Sound(cfg, top) && Accounted(cfg, top)
    ensures var M := AtGate(top, r);
            Sound(cfg, M) && Accounted(cfg, M) && M.forced == top.forced && Checks(M.scdLog) == Checks(top.scdLog)
  {
    InterfereCounts(cfg, top.(now := top.now + r.gateTime), r.beforeGate);
  }

  /** An iteration keeps the accounts, and the mode it loaded decides which gate it may touch. */
  lemma IterateAccounted(cfg: Config, L: Loop, r: Round)
    requires ProperConfig(cfg) && Sound(cfg, L) && |r.gray| == cfg.aff.pixels && Accounted(cfg, L)
    ensures Aff.ProperLog(cfg.aff, Iterate(cfg, L, r).affLog) && Accounted(cfg, Iterate(cfg, L, r))
    ensures !r.grabbed || AtModeLoad(cfg, L, r).mode == Idle ==> Iterate(cfg, L, r).forced == L.forced
    ensures !r.grabbed || AtModeLoad(cfg, L, r).mode != Idle ==> Checks(Iterate(cfg, L, r).scdLog) == Checks(L.scdLog)
  {
    LoadAccounted(cfg, L, r);
    var top := AtModeLoad(cfg, L, r);
    GateAccounted(cfg, top, r);
    if r.grabbed {
      if top.mode != Idle {
        ForcedGateAccounted(cfg, AtGate(top, r), r);
      } else {
        IdleGateAccounted(cfg, AtGate(top, r), r);
      }
    }
  }

  /** Conservation over every run of the loop against every interleaving of the other threads. */
  lemma {:induction false} RunAccounted(cfg: Config, L: Loop, rounds: seq<Round>)
    requires ProperConfig(cfg) && Sound(cfg, L) && ProperRounds(cfg, rounds) && Accounted(cfg, L)
    ensures Accounted(cfg, RunRounds(cfg, L, rounds))
    decreases |rounds|
  {
    if rounds != [] {
      RunAccounted(cfg, L, rounds[..|rounds| - 1]);
      IterateAccounted(cfg, RunRounds(cfg, L, rounds[..|rounds| - 1]), rounds[|rounds| - 1]);
    }
  }

  /** What becomes of the frames let through in one stretch: each is sent, or lost where there was neither a
      connection nor a reconnection. */
  ghost predicate Delivered(cfg: Config, L: Loop, M: Loop, linked: bool)
    requires Aff.ProperLog(cfg.aff, L.affLog) && Aff.ProperLog(cfg.aff, M.affLog)
  {
    var through := Emissions(cfg, M.affLog) - Emissions(cfg, L.affLog);
    && 0 <= through <= 1
    && M.lost == L.lost + (if linked then 0 else through)
    && |M.sent| == |L.sent| + (if linked then through else 0)
  }

  lemma ForcedGateDelivers(cfg: Config, L: Loop, r: Round)
    requires Sound(cfg, L) && |r.gray| == cfg.aff.pixels > 0
    ensures Aff.ProperLog(cfg.aff, ForcedGate(L, r).affLog)
    ensures Delivered(cfg, L, ForcedGate(L, r), r.connected || r.reconnects)
  {
    if ForcedDue(L) {
      ForcedDecisionSound(cfg, L);
      AtFilterAccounted(cfg, ForcedDecision(L), r);
      var M := AtFilter(ForcedDecision(L), r);
      AppendCounts(cfg, M.affLog, Aff.Forced(M.now, r.gray));
    }
  }

  lemma IdleGateDelivers(cfg: Config, L: Loop, r: Round)
    requires ProperConfig(cfg) && Sound(cfg, L) && |r.gray| == cfg.aff.pixels
    ensures Aff.ProperLog(cfg.aff, IdleGate(cfg, L, r).affLog)
    ensures Delivered(cfg, L, IdleGate(cfg, L, r), r.connected || r.reconnects)
  {
    AtFilterAccounted(cfg, ScdCall(L, r.shot), r);
    var M := AtFilter(ScdCall(L, r.shot), r);
    AppendCounts(cfg, M.affLog, Aff.Evaluated(M.now, r.gray, r.sharpness));
  }

  lemma GateCounts(cfg: Config, L: Loop, r: Round)
    requires ProperConfig(cfg) && Sound(cfg, L)
    ensures var gate := AtGate(AtModeLoad(cfg, L, r), r);
            && Sound(cfg, gate) && SameCounts(cfg, L, gate)
            && gate.sent == L.sent && gate.lost == L.lost && gate.forced == L.forced
            && gate.lastForced == L.lastForced
  {
    InterfereCounts(cfg, L.(nextTick := L.nextTick + GrabInterval(cfg), now := L.now + r.grabTime), r.atTop);
    var top := AtModeLoad(cfg, L, r);
    InterfereCounts(cfg, top.(now := top.now + r.gateTime), r.beforeGate);
  }

  /** In an iteration, a frame that is let through is lost exactly when there is neither a connection nor a
      reconnection, and otherwise given one number and sent. */
  lemma IterateDelivers(cfg: Config, L: Loop, r: Round)
    requires ProperConfig(cfg) && Sound(cfg, L) && |r.gray| == cfg.aff.pixels
    ensures Aff.ProperLog(cfg.aff, Iterate(cfg, L, r).affLog)
    ensures Delivered(cfg, L, Iterate(cfg, L, r), r.connected || r.reconnects)
  {
    IterateSound(cfg, L, r);
    LoadCounts(cfg, L, r);
    GateCounts(cfg, L, r);
    var top := AtModeLoad(cfg, L, r);
    GateSound(cfg, L, r);
    if r.grabbed {
      if top.mode != Idle {
        ForcedGateDelivers(cfg, AtGate(top, r), r);
      } else {
        IdleGateDelivers(cfg, AtGate(top, r), r);
      }
    }
  }

  lemma LoadCounts(cfg: Config, L: Loop, r: Round)
    requires ProperConfig(cfg) && Sound(cfg, L)
    ensures var top := AtModeLoad(cfg, L, r);
            && Sound(cfg, top) && SameCounts(cfg, L, top)
            && top.sent == L.sent && top.lost == L.lost && top.forced == L.forced
  {
    InterfereCounts(cfg, L.(nextTick := L.nextTick + GrabInterval(cfg), now := L.now + r.grabTime), r.atTop);
  }

  /** The rounds of a run that let a frame through and had, or did not have, a connection for it. */
  ghost function Rounds(cfg: Config, L: Loop, rounds: seq<Round>, linked: bool): nat
    requires ProperConfig(cfg) && Sound(cfg, L) && ProperRounds(cfg, rounds)
    decreases |rounds|
  {
    if rounds == [] then 0
    else
      var init, r := rounds[..|rounds| - 1], rounds[|rounds| - 1];
      var through := Emissions(cfg, RunRounds(cfg, L, rounds).affLog) > Emissions(cfg, RunRounds(cfg, L, init).affLog);
      Rounds(cfg, L, init, linked) + if through && (r.connected || r.reconnects) == linked then 1 else 0
  }

  /** Over every run: a frame is sent for each round that let one through with a connection, and lost for
      each that did without. */
  lemma {:induction false} RunDelivers(cfg: Config, L: Loop, rounds: seq<Round>)
    requires ProperConfig(cfg) && Sound(cfg, L) && ProperRounds(cfg, rounds)
    ensures |RunRounds(cfg, L, rounds).sent| == |L.sent| + Rounds(cfg, L, rounds, true)
    ensures RunRounds(cfg, L, rounds).lost == L.lost + Rounds(cfg, L, rounds, false)
    decreases |rounds|
  {
    if rounds != [] {
      var init := rounds[..|rounds| - 1];
      RunDelivers(cfg, L, init);
      IterateDelivers(cfg, RunRounds(cfg, L, init), rounds[|rounds| - 1]);
    }
  }

  // ---- what the filters are asked ---------------------------------------------------

  /** The calls of the adaptive filter that are not resets. */
  function Calls(log: seq<Aff.Event>): seq<Aff.Event> {
    if log == [] then []
    else Calls(log[..|log| - 1]) + if log[|log| - 1].Cleared? then [] else [log[|log| - 1]]
  }

  /** The frames the scene-change detector was shown. */
  function Shown(log: seq<Scd.Event>): seq<Scd.Frame> {
    if log == [] then []
    else Shown(log[..|log| - 1]) + if log[|log| - 1].Cleared? then [] else [log[|log| - 1].frame]
  }

  lemma CallsSnoc(log: seq<Aff.Event>, e: Aff.Event)
    ensures Calls(log + [e]) == Calls(log) + if e.Cleared? then [] else [e]
  {
    assert (log + [e])[..|log|] == log;
  }

  lemma ShownSnoc(log: seq<Scd.Event>, e: Scd.Event)
    ensures Shown(log + [e]) == Shown(log) + if e.Cleared? then [] else [e.frame]
  {
    assert (log + [e])[..|log|] == log;
  }

  lemma {:induction false} ResetsUncalled(log: seq<Aff.Event>, pokes: seq<Poke>, now: nat)
    ensures Calls(log + AffResets(pokes, now)) == Calls(log)
  {
    if pokes == [] {
      assert log + AffResets(pokes, now) == log;
    } else {
      var before := log + AffResets(pokes[..|pokes| - 1], now);
      ResetsUncalled(log, pokes[..|pokes| - 1], now);
      CallsSnoc(before, Aff.Cleared(now));
      assert log + AffResets(pokes, now)
          == before + if pokes[|pokes| - 1].ResetAff? then [Aff.Cleared(now)] else [];
      assert before + [] == before;
    }
  }

  lemma {:induction false} ResetsUnshown(log: seq<Scd.Event>, pokes: seq<Poke>)
    ensures Shown(log + ScdResets(pokes)) == Shown(log)
  {
    if pokes == [] {
      assert log + ScdResets(pokes) == log;
    } else {
      var before := log + ScdResets(pokes[..|pokes| - 1]);
      ResetsUnshown(log, pokes[..|pokes| - 1]);
      ShownSnoc(before, Scd.Cleared);
      assert log + ScdResets(pokes) == before + if pokes[|pokes| - 1].ResetScd? then [Scd.Cleared] else [];
      assert before + [] == before;
    }
  }

  lemma InterfereAsksNothing(L: Loop, pokes: seq<Poke>)
    ensures Calls(Interfere(L, pokes).affLog) == Calls(L.affLog)
    ensures Shown(Interfere(L, pokes).scdLog) == Shown(L.scdLog)
  {
    ResetsUncalled(L.affLog, pokes, L.now);
    ResetsUnshown(L.scdLog, pokes);
  }

  lemma GateAsksNothing(cfg: Config, L: Loop, r: Round)
    requires ProperConfig(cfg)
    ensures var top := AtModeLoad(cfg, L, r);
            && Calls(top.affLog) == Calls(L.affLog) && Shown(top.scdLog) == Shown(L.scdLog)
            && Calls(AtGate(top, r).affLog) == Calls(L.affLog) && Shown(AtGate(top, r).scdLog) == Shown(L.scdLog)
  {
    InterfereAsksNothing(L.(nextTick := L.nextTick + GrabInterval(cfg), now := L.now + r.grabTime), r.atTop);
    var top := AtModeLoad(cfg, L, r);
    InterfereAsksNothing(top.(now := top.now + r.gateTime), r.beforeGate);
  }

  lemma ForcedGateAsks(L: Loop, r: Round)
    ensures var M, due := ForcedGate(L, r), L.lastForced == 0 || L.now - L.lastForced >= 1_000_000_000;
            && M.forced == L.forced + (if due then [L.now] else []) && Shown(M.scdLog) == Shown(L.scdLog)
            && Calls(M.affLog) == Calls(L.affLog) + (if due then [Aff.Forced(L.now + r.filterTime, r.gray)] else [])
  {
    if ForcedDue(L) {
      var decided := ForcedDecision(L);
      InterfereAsksNothing(decided.(now := decided.now + r.filterTime), r.beforeFilter);
      var M := AtFilter(decided, r);
      CallsSnoc(M.affLog, Aff.Forced(M.now, r.gray));
    }
  }

  lemma FilterGateAsks(cfg: Config, L: Loop, r: Round)
    requires Aff.ProperLog(cfg.aff, L.affLog) && L.now > 0 && |r.gray| == cfg.aff.pixels > 0
    ensures var M := FilterGate(cfg, L, r);
            && M.forced == L.forced && M.scdLog == L.scdLog
            && Calls(M.affLog) == Calls(L.affLog) + [Aff.Evaluated(L.now, r.gray, r.sharpness)]
  {
    CallsSnoc(L.affLog, Aff.Evaluated(L.now, r.gray, r.sharpness));
    hide Calls, Aff.Decide;
  }

  lemma AtFilterAsksNothing(L: Loop, r: Round)
    ensures var M := AtFilter(L, r);
            && Calls(M.affLog) == Calls(L.affLog) && Shown(M.scdLog) == Shown(L.scdLog)
            && M.now == L.now + r.filterTime && M.forced == L.forced
  {
    InterfereAsksNothing(L.(now := L.now + r.filterTime), r.beforeFilter);
  }

  lemma IdleGateAsks(cfg: Config, L: Loop, r: Round)
    requires ProperConfig(cfg) && Sound(cfg, L) && |r.gray| == cfg.aff.pixels
    ensures var M, changed := IdleGate(cfg, L, r), DeclaresChange(cfg, L.scdLog, Scd.Checked(r.shot));
            && M.forced == L.forced && Shown(M.scdLog) == Shown(L.scdLog) + [r.shot]
            && Calls(M.affLog) == Calls(L.affLog)
               + (if changed then [Aff.Evaluated(L.now + r.filterTime, r.gray, r.sharpness)] else [])
  {
    ShownSnoc(L.scdLog, Scd.Checked(r.shot));
    var checked := ScdCall(L, r.shot);
    AtFilterSound(cfg, checked, r);
    AtFilterAsksNothing(checked, r);
    FilterGateAsks(cfg, AtFilter(checked, r), r);
    hide AtFilter, FilterGate, Calls, Shown, ForcedSpaced, LogSound, Aff.ProperLog, Scd.After;
    assert Calls(L.affLog) + [] == Calls(L.affLog);
  }

  lemma ForcingAsks(cfg: Config, L: Loop, r: Round)
    requires ProperConfig(cfg) && Sound(cfg, L) && |r.gray| == cfg.aff.pixels
    requires r.grabbed && AtModeLoad(cfg, L, r).mode != Idle
    ensures var M, gate := Iterate(cfg, L, r), AtGate(AtModeLoad(cfg, L, r), r);
            var due := L.lastForced == 0 || gate.now - L.lastForced >= 1_000_000_000;
            && M.forced == L.forced + (if due then [gate.now] else []) && Shown(M.scdLog) == Shown(L.scdLog)
            && Calls(M.affLog) == Calls(L.affLog)
               + (if due then [Aff.Forced(gate.now + r.filterTime, r.gray)] else [])
  {
    GateSound(cfg, L, r);
    GateAsksNothing(cfg, L, r);
    hide Calls, Shown, Sound, ForcedGate, IdleGate, ForcedDue;
    ForcedGateAsks(AtGate(AtModeLoad(cfg, L, r), r), r);
  }

  lemma IdlingAsks(cfg: Config, L: Loop, r: Round)
    requires ProperConfig(cfg) && Sound(cfg, L) && |r.gray| == cfg.aff.pixels
    requires r.grabbed && AtModeLoad(cfg, L, r).mode == Idle
    ensures var M, gate := Iterate(cfg, L, r), AtGate(AtModeLoad(cfg, L, r), r);
            && M.forced == L.forced && Shown(M.scdLog) == Shown(L.scdLog) + [r.shot]
            && Calls(M.affLog) == Calls(L.affLog)
               + (if DeclaresChange(cfg, gate.scdLog, Scd.Checked(r.shot))
                  then [Aff.Evaluated(gate.now + r.filterTime, r.gray, r.sharpness)] else [])
  {
    GateSound(cfg, L, r);
    GateAsksNothing(cfg, L, r);
    hide Calls, Shown, Sound, ForcedGate, IdleGate, DeclaresChange;
    IdleGateAsks(cfg, AtGate(AtModeLoad(cfg, L, r), r), r);
  }

  /** What one iteration asks, in full: with a frame and idle mode, the detector is shown that frame, and the
      filter evaluates it if it is a change; with a frame and any other mode, if a second has passed since the
      last forced decision or there was none, one is made and the filter told; otherwise nothing. */
  lemma IterateAsks(cfg: Config, L: Loop, r: Round)
    requires ProperConfig(cfg) && Sound(cfg, L) && |r.gray| == cfg.aff.pixels
    ensures var top, M := AtModeLoad(cfg, L, r), Iterate(cfg, L, r);
            var gate := AtGate(top, r);
            var idle := r.grabbed && top.mode == Idle;
            var due := r.grabbed && top.mode != Idle
                       && (L.lastForced == 0 || gate.now - L.lastForced >= 1_000_000_000);
            && Shown(M.scdLog) == Shown(L.scdLog) + (if idle then [r.shot] else [])
            && M.forced == L.forced + (if due then [gate.now] else [])
            && Calls(M.affLog) == Calls(L.affLog)
               + (if due then [Aff.Forced(gate.now + r.filterTime, r.gray)]
                  else if idle && DeclaresChange(cfg, gate.scdLog, Scd.Checked(r.shot))
                  then [Aff.Evaluated(gate.now + r.filterTime, r.gray, r.sharpness)] else [])
  {
    if !r.grabbed {
      GateSound(cfg, L, r);
      GateAsksNothing(cfg, L, r);
      hide Sound;
    } else if AtModeLoad(cfg, L, r).mode != Idle {
      ForcingAsks(cfg, L, r);
      hide Iterate, AtModeLoad, AtGate, DeclaresChange;
    } else {
      IdlingAsks(cfg, L, r);
      hide Iterate, AtModeLoad, AtGate, DeclaresChange;
    }
  }

  /** What was let through and what was declared a change is what the whole history prescribes. */
  lemma RunIsHistorical(cfg: Config, L: Loop, rounds: seq<Round>, i: nat, j: nat)
    requires ProperConfig(cfg) && Sound(cfg, L) && ProperRounds(cfg, rounds)
    requires i < |RunRounds(cfg, L, rounds).affLog| && j < |RunRounds(cfg, L, rounds).scdLog|
    ensures var log := RunRounds(cfg, L, rounds).affLog;
            LetsThrough(cfg, log[..i], log[i]) <==> Aff.Emits(cfg.aff, log, i)
    ensures var log := RunRounds(cfg, L, rounds).scdLog;
            DeclaresChange(cfg, log[..j], log[j]) <==> Scd.IsChange(cfg.scd, log, j)
  {
    var M := RunRounds(cfg, L, rounds);
    if M.affLog[i].Evaluated? {
      Aff.DecisionIsHistorical(cfg.aff, M.affLog, i);
    }
    if M.scdLog[j].Checked? {
      Scd.DecisionIsHistorical(cfg.scd, M.scdLog, j);
    }
  }

  // ---- pacing and numbering ---------------------------------------------------------

  /** Time moves on, the schedule stays, and at most one number is handed out, the next one. */
  ghost predicate Follows(L: Loop, M: Loop) {
    && M.nextTick == L.nextTick && L.now <= M.now
    && (if |M.sent| == |L.sent| then M.sent == L.sent && M.seqNo == L.seqNo
        else M.seqNo == (L.seqNo + 1) % TWO64 && M.sent == L.sent + [M.seqNo])
  }

  lemma ForcedGateFollows(L: Loop, r: Round)
    ensures Follows(L, ForcedGate(L, r))
  {
  }

  lemma IdleGateFollows(cfg: Config, L: Loop, r: Round)
    requires ProperConfig(cfg) && Sound(cfg, L) && |r.gray| == cfg.aff.pixels
    ensures Follows(L, IdleGate(cfg, L, r)) && IdleGate(cfg, L, r).lastForced == L.lastForced
  {
  }

  /** The latest an iteration's own work can be done. */
  function WorkDone(L: Loop, r: Round): nat {
    L.now + r.grabTime + r.gateTime + r.filterTime + r.connectTime + r.sendTime
  }

  /** An iteration does not dawdle: it ends when its work is done, or sleeps until its tick. */
  lemma IteratePrompt(cfg: Config, L: Loop, r: Round)
    requires ProperConfig(cfg) && Sound(cfg, L) && |r.gray| == cfg.aff.pixels
    ensures var M := Iterate(cfg, L, r); M.now <= WorkDone(L, r) || M.now == M.nextTick + r.oversleep
  {
    GateSound(cfg, L, r);
    hide Sound;
  }

  /** An iteration moves the schedule by exactly one interval and never finishes before its tick. */
  lemma IterateSchedule(cfg: Config, L: Loop, r: Round)
    requires ProperConfig(cfg) && Sound(cfg, L) && |r.gray| == cfg.aff.pixels
    ensures var M := Iterate(cfg, L, r);
            Follows(L.(nextTick := L.nextTick + GrabInterval(cfg)), M) && M.nextTick <= M.now
  {
    var top := AtModeLoad(cfg, L, r);
    GateSound(cfg, L, r);
    if r.grabbed {
      if top.mode != Idle {
        ForcedGateFollows(AtGate(top, r), r);
      } else {
        IdleGateFollows(cfg, AtGate(top, r), r);
      }
    }
  }

  lemma TicksAdd(k: nat, interval: nat)
    ensures (k + 1) * interval == k * interval + interval
  {
  }

  /** `n` frames at `fps` take `span` nanoseconds, but for less than one each. */
  predicate SpansFrames(span: nat, n: nat, fps: real) {
    n as real * (1_000_000_000.0 - fps) <= span as real * fps <= n as real * 1_000_000_000.0
  }

  /** The time `n` ticks take. */
  function Ticks(cfg: Config, n: nat): nat
    requires ProperConfig(cfg)
  {
    n * GrabInterval(cfg)
  }

  lemma TicksSpan(cfg: Config, n: nat)
    requires ProperConfig(cfg)
    ensures SpansFrames(Ticks(cfg, n), n, cfg.grabFps)
  {
    RateOfTicks(SECOND, cfg.grabFps, n);
  }

  /** After `k` iterations the clock has reached the k-th tick, whatever failed, slept or stalled, and the
      schedule itself never drifts. In frames per second: `k` ticks span `k / grabFps` seconds, short of it by
      less than a nanosecond each for rounding the interval down. */
  lemma {:induction false} Pacing(cfg: Config, L: Loop, rounds: seq<Round>)
    requires ProperConfig(cfg) && Sound(cfg, L) && ProperRounds(cfg, rounds) && L.nextTick <= L.now
    ensures var M := RunRounds(cfg, L, rounds);
            M.nextTick == L.nextTick + Ticks(cfg, |rounds|) <= M.now
    ensures SpansFrames(Ticks(cfg, |rounds|), |rounds|, cfg.grabFps)
    decreases |rounds|
  {
    TicksSpan(cfg, |rounds|);
    hide SpansFrames;
    if rounds != [] {
      var init := rounds[..|rounds| - 1];
      Pacing(cfg, L, init);
      IterateSchedule(cfg, RunRounds(cfg, L, init), rounds[|rounds| - 1]);
      TicksAdd(|init|, GrabInterval(cfg));
    }
  }

  /** The numbers handed out by `M` continue those of `L` without gap or repetition, modulo 2^64. */
  ghost predicate Consecutive(L: Loop, M: Loop) {
    && L.sent <= M.sent
    && M.seqNo == (L.seqNo + |M.sent| - |L.sent|) % TWO64
    && forall i | |L.sent| <= i < |M.sent| :: M.sent[i] == (L.seqNo + i + 1 - |L.sent|) % TWO64
  }

  lemma ConsecutiveStep(L: Loop, M: Loop, N: Loop)
    requires Consecutive(L, M) && Follows(M.(nextTick := N.nextTick), N)
    ensures Consecutive(L, N)
  {
  }

  /** The numbers given to the sender over a run are consecutive; from a fresh pipeline, 1, 2, 3, ... */
  lemma {:induction false} Numbering(cfg: Config, L: Loop, rounds: seq<Round>)
    requires ProperConfig(cfg) && Sound(cfg, L) && ProperRounds(cfg, rounds) && L.seqNo < TWO64
    ensures Consecutive(L, RunRounds(cfg, L, rounds))
    decreases |rounds|
  {
    if rounds != [] {
      var init := rounds[..|rounds| - 1];
      Numbering(cfg, L, init);
      IterateSchedule(cfg, RunRounds(cfg, L, init), rounds[|rounds| - 1]);
      ConsecutiveStep(L, RunRounds(cfg, L, init), RunRounds(cfg, L, rounds));
    }
  }

  // ---- rate bounds over whole runs --------------------------------------------------

  /** Decisions `from .. to` of the run happened within `length` nanoseconds. */
  predicate ForcedWithin(times: seq<nat>, from: nat, to: nat, length: nat) {
    from <= to < |times| && times[to] - times[from] <= length
  }

  /** Forced decisions in any interval of `length` nanoseconds, over any run: at most one per started second
      plus one. */
  lemma ForcedRateBound(cfg: Config, L: Loop, rounds: seq<Round>, from: nat, to: nat, length: nat)
    requires ProperConfig(cfg) && Sound(cfg, L) && ProperRounds(cfg, rounds)
    ensures ForcedWithin(RunRounds(cfg, L, rounds).forced, from, to, length) ==> to - from + 1 <= length / SECOND + 1
  {
    hide RunRounds;
    var times := RunRounds(cfg, L, rounds).forced;
    if ForcedWithin(times, from, to, length) {
      SpacedSpread(times, SECOND, from, to);
      QuotientBound(to - from, SECOND, length);
    }
  }

  /** The time at which an iteration's gate decides. */
  function GateTime(cfg: Config, L: Loop, r: Round): nat
    requires ProperConfig(cfg)
  {
    AtGate(AtModeLoad(cfg, L, r), r).now
  }

  /** The iteration has a frame and loads a mode that forces capture. */
  predicate Forcing(cfg: Config, L: Loop, r: Round)
    requires ProperConfig(cfg)
  {
    r.grabbed && AtModeLoad(cfg, L, r).mode != Idle
  }

  /** After a forcing iteration the latest forced decision is less than a second old. */
  ghost predicate Recent(forced: seq<nat>, now: nat) {
    forced != [] && now - forced[|forced| - 1] < SECOND
  }

  lemma ForcedStaysRecent(cfg: Config, L: Loop, r: Round)
    requires ProperConfig(cfg) && Sound(cfg, L) && |r.gray| == cfg.aff.pixels && Forcing(cfg, L, r)
    ensures var now, M := GateTime(cfg, L, r), Iterate(cfg, L, r);
            Recent(M.forced, now) && (M.forced == L.forced || M.forced == L.forced + [now])
  {
    GateSound(cfg, L, r);
    assert ForcedSpaced(AtGate(AtModeLoad(cfg, L, r), r));
    hide Sound, LogSound;
  }

  ghost function Before(cfg: Config, L: Loop, rounds: seq<Round>, k: nat): (M: Loop)
    requires ProperConfig(cfg) && Sound(cfg, L) && ProperRounds(cfg, rounds) && k <= |rounds|
    ensures Sound(cfg, M)
  {
    RunRounds(cfg, L, rounds[..k])
  }

  ghost function GateAt(cfg: Config, L: Loop, rounds: seq<Round>, k: nat): nat
    requires ProperConfig(cfg) && Sound(cfg, L) && ProperRounds(cfg, rounds) && k < |rounds|
  {
    GateTime(cfg, Before(cfg, L, rounds, k), rounds[k])
  }

  lemma BeforeNext(cfg: Config, L: Loop, rounds: seq<Round>, k: nat)
    requires ProperConfig(cfg) && Sound(cfg, L) && ProperRounds(cfg, rounds) && k < |rounds|
    ensures Before(cfg, L, rounds, k + 1) == Iterate(cfg, Before(cfg, L, rounds, k), rounds[k])
  {
    assert rounds[..k + 1][..k] == rounds[..k];
  }

  /** Iterations `from .. until` all force capture, each deciding at most `pause` after the one before. */
  ghost predicate ForcingRun(cfg: Config, L: Loop, rounds: seq<Round>, from: nat, until: nat, pause: nat)
    requires ProperConfig(cfg) && Sound(cfg, L) && ProperRounds(cfg, rounds) && from < until <= |rounds|
  {
    && (forall k | from <= k < until :: Forcing(cfg, Before(cfg, L, rounds, k), rounds[k]))
    && (forall k: nat | from <= k && k + 1 < until ::
          GateAt(cfg, L, rounds, k + 1) - GateAt(cfg, L, rounds, k) <= pause)
  }

  /** From index `first` on, neighbouring times are less than `bound` apart. */
  ghost predicate Close(times: seq<nat>, first: nat, bound: nat) {
    forall i | first <= i < |times| - 1 :: times[i + 1] - times[i] < bound
  }

  lemma CloseAppend(times: seq<nat>, first: nat, bound: nat, t: nat)
    requires Close(times, first, bound) && times != [] && t - times[|times| - 1] < bound
    ensures Close(times + [t], first, bound)
  {
    var all := times + [t];
    forall i | first <= i < |all| - 1 ensures all[i + 1] - all[i] < bound {
      if i + 1 < |times| {
        assert all[i + 1] == times[i + 1] && all[i] == times[i];
      }
    }
  }

  /** What "one frame a second" means from below: through any stretch of forcing iterations, starting with
      its first decision, successive forced decisions are less than a second and one pause apart, and the
      latest is less than a second old at the last gate. */
  lemma {:induction false} ForcedCadence(cfg: Config, L: Loop, rounds: seq<Round>, from: nat, until: nat, pause: nat)
    requires ProperConfig(cfg) && Sound(cfg, L) && ProperRounds(cfg, rounds) && from < until <= |rounds|
    requires ForcingRun(cfg, L, rounds, from, until, pause)
    ensures var first, forced := |Before(cfg, L, rounds, from + 1).forced|, Before(cfg, L, rounds, until).forced;
            && 0 < first <= |forced|
            && Close(forced, first - 1, SECOND + pause)
            && Recent(forced, GateAt(cfg, L, rounds, until - 1))
    decreases until - from
  {
    hide Sound, ProperRounds, RunRounds, Before, Iterate, GateTime, Forcing;
    var k := until - 1;
    BeforeNext(cfg, L, rounds, k);
    RoundProper(cfg, rounds, k);
    ForcedStaysRecent(cfg, Before(cfg, L, rounds, k), rounds[k]);
    assert GateAt(cfg, L, rounds, k) == GateTime(cfg, Before(cfg, L, rounds, k), rounds[k]);
    if from < k {
      ForcedCadence(cfg, L, rounds, from, k, pause);
      var was, g := Before(cfg, L, rounds, k).forced, GateAt(cfg, L, rounds, k);
      assert g - GateAt(cfg, L, rounds, k - 1) <= pause by {
        assert GateAt(cfg, L, rounds, (k - 1) + 1) - GateAt(cfg, L, rounds, k - 1) <= pause;
      }
      CloseAppend(was, |Before(cfg, L, rounds, from + 1).forced| - 1, SECOND + pause, g);
    }
  }

  lemma RoundProper(cfg: Config, rounds: seq<Round>, k: nat)
    requires ProperRounds(cfg, rounds) && k < |rounds|
    ensures |rounds[k].gray| == cfg.aff.pixels
  {
  }

  /** The filter's calls `from .. to` are those made from `start` on for `length` nanoseconds. */
  ghost predicate CallsWithin(log: seq<Aff.Event>, from: nat, to: nat, start: nat, length: nat) {
    && from <= to <= |log|
    && (forall i | 0 <= i < from :: log[i].now <= start)
    && (forall i | from <= i < |log| :: start <= log[i].now)
    && (forall i | from <= i < to :: log[i].now <= start + length)
  }

  /** Idle accepts in any interval of `length` nanoseconds, over any run with any resets: one more than the
      resets, and then no more than `maxFps` a second, but for the rounding of the interval. */
  lemma IdleRateBound(cfg: Config, L: Loop, rounds: seq<Round>, from: nat, to: nat, start: nat, length: nat)
    requires ProperConfig(cfg) && Sound(cfg, L) && ProperRounds(cfg, rounds)
    requires 0.0 < cfg.aff.maxFps <= SECOND as real && start > 0
    ensures var log := RunRounds(cfg, L, rounds).affLog;
            CallsWithin(log, from, to, start, length) ==>
              && Aff.MinInterval(cfg.aff) > 0
              && Aff.Accepts(cfg.aff, log, from, to)
                 <= length / Aff.MinInterval(cfg.aff) + Aff.Resets(log, from, to) + 1
              && Aff.WithinRate(Aff.Accepts(cfg.aff, log, from, to) - Aff.Resets(log, from, to) - 1,
                                cfg.aff.maxFps, length)
  {
    hide RunRounds, Aff.WithinRate, Aff.MinInterval;
    var M := RunRounds(cfg, L, rounds);
    if CallsWithin(M.affLog, from, to, start, length) {
      InOrderMeans(M.affLog, M.now);
      Aff.RateBound(cfg.aff, M.affLog, from, to, start, length);
    }
  }

  // ---- the pipeline object ----------------------------------------------------------

  class CapturePipeline {
    const cfg: Config
    const scd: Scd.SceneChangeDetector
    const aff: Aff.AdaptiveFrameFilter
    var mode: Mode
    var frameSeq: nat

    ghost predicate Valid()
      reads this, scd, aff
    {
      && ProperConfig(cfg) && scd.cfg == cfg.scd && aff.cfg == cfg.aff
      && scd.Valid() && aff.Valid()
    }

    constructor (cfg: Config)
      requires ProperConfig(cfg)
      ensures Valid() && fresh(scd) && fresh(aff)
      ensures mode == Idle && frameSeq == 0 && scd.log == [] && aff.log == []
    {
      this.cfg := cfg;
      scd := new Scd.SceneChangeDetector(cfg.scd);
      aff := new Aff.AdaptiveFrameFilter(cfg.aff);
      mode, frameSeq := Idle, 0;
    }

    /** Both filters are reset when typing ends, and only when it was typing that ended. */
    method SetTyping(typing: bool, now: nat)
      requires Valid() && now > 0
      modifies this`mode, scd, aff
      ensures Valid() && mode == OnTyping(old(mode), typing)
      ensures !typing && old(mode) == Typing ==>
                scd.log == old(scd.log) + [Scd.Cleared] && aff.log == old(aff.log) + [Aff.Cleared(now)]
      ensures typing || old(mode) != Typing ==> scd.log == old(scd.log) && aff.log == old(aff.log)
    {
      if typing {
        if mode != Query {
          mode := Typing;
        }
      } else {
        if mode == Typing {
          mode := Idle;
          scd.Reset();
          aff.Reset(now);
        }
      }
    }

    method BeginQuery()
      modifies this`mode
      ensures mode == Handle(old(mode), BeginEvent)
    {
      mode := Query;
    }

    method EndQuery(now: nat)
      requires Valid() && now > 0
      modifies this`mode, scd, aff
      ensures Valid() && mode == Handle(old(mode), EndEvent)
      ensures scd.log == old(scd.log) + [Scd.Cleared] && aff.log == old(aff.log) + [Aff.Cleared(now)]
    {
      mode := Idle;
      scd.Reset();
      aff.Reset(now);
    }

    /** The abstract loop state agrees with the objects. */
    ghost predicate Shows(L: Loop)
      reads this, scd, aff
    {
      L.mode == mode && L.seqNo == frameSeq && L.scdLog == scd.log && L.affLog == aff.log
    }

    method Interference(pokes: seq<Poke>, now: nat, ghost L: Loop)
      requires Valid() && now > 0 && Shows(L) && L.now == now
      modifies this`mode, scd, aff
      ensures Valid() && Shows(Interfere(L, pokes))
    {
      for i := 0 to |pokes|
        invariant Valid() && mode == LastStored(L.mode, pokes[..i])
        invariant scd.log == L.scdLog + ScdResets(pokes[..i]) && aff.log == L.affLog + AffResets(pokes[..i], now)
      {
        assert pokes[..i + 1][..i] == pokes[..i];
        match pokes[i] {
          case StoreMode(m) => mode := m;
          case ResetScd => scd.Reset();
          case ResetAff => aff.Reset(now);
        }
      }
      assert pokes[..|pokes|] == pokes;
    }

    /** Reconnect if needed, then number the frame and hand it to the sender, whose verdict is ignored. */
    method Emit(r: Round, now: nat, sent: seq<nat>, ghost L: Loop) returns (now': nat, sent': seq<nat>)
      requires Shows(L) && L.now == now && L.sent == sent
      modifies this`frameSeq
      ensures Shows(Deliver(L, r)) && now' == Deliver(L, r).now && sent' == Deliver(L, r).sent
      ensures if r.connected || r.reconnects
              then frameSeq == (old(frameSeq) + 1) % 0x1_0000_0000_0000_0000 && sent' == sent + [frameSeq]
              else frameSeq == old(frameSeq) && sent' == sent
    {
      now', sent' := now + r.connectTime, sent;
      if !r.connected {
        if !r.reconnects {
          return;
        }
      }
      frameSeq := (frameSeq + 1) % TWO64;
      now', sent' := now' + r.sendTime, sent' + [frameSeq];
    }

    /** The forced branch of one iteration. */
    method ForcedStep(r: Round, now: nat, lastForced: nat, sent: seq<nat>, ghost L: Loop)
      returns (now': nat, lastForced': nat, sent': seq<nat>)
      requires Valid() && Sound(cfg, L) && Shows(L) && |r.gray| == cfg.aff.pixels
      requires L.now == now && L.lastForced == lastForced && L.sent == sent
      modifies this, scd, aff
      ensures Valid() && Shows(ForcedGate(L, r))
      ensures var M := ForcedGate(L, r); now' == M.now && lastForced' == M.lastForced && sent' == M.sent
    {
      now', lastForced', sent' := now, lastForced, sent;
      if lastForced == 0 || now - lastForced >= SECOND {
        lastForced', now' := now, now + r.filterTime;
        ghost var decided := ForcedDecision(L);
        ForcedDecisionSound(cfg, L);
        AtFilterSound(cfg, decided, r);
        Interference(r.beforeFilter, now', decided.(now := now'));
        var d := aff.EvaluateForced(now', r.gray);
        now', sent' := Emit(r, now', sent, ForcedCall(AtFilter(decided, r), r.gray));
      }
    }

    /** The filter's turn in the idle branch. */
    method FilterStep(r: Round, now: nat, sent: seq<nat>, ghost L: Loop) returns (now': nat, sent': seq<nat>)
      requires Valid() && Shows(L) && |r.gray| == cfg.aff.pixels
      requires L.now == now > 0 && L.sent == sent
      modifies this`frameSeq, aff
      ensures Valid() && Shows(FilterGate(cfg, L, r))
      ensures now' == FilterGate(cfg, L, r).now && sent' == FilterGate(cfg, L, r).sent
    {
      now', sent' := now, sent;
      var d := aff.Evaluate(now, r.gray, r.sharpness);
      if d == Aff.Accept {
        now', sent' := Emit(r, now, sent, IdleCall(L, r));
      }
    }

    /** The idle branch of one iteration. */
    method IdleStep(r: Round, now: nat, sent: seq<nat>, ghost L: Loop) returns (now': nat, sent': seq<nat>)
      requires Valid() && Sound(cfg, L) && Shows(L) && |r.gray| == cfg.aff.pixels
      requires L.now == now && L.sent == sent
      modifies this, scd, aff
      ensures Valid() && Shows(IdleGate(cfg, L, r))
      ensures now' == IdleGate(cfg, L, r).now && sent' == IdleGate(cfg, L, r).sent
    {
      now', sent' := now, sent;
      var changed := scd.IsSceneChange(r.shot);
      if changed {
        ghost var checked := ScdCall(L, r.shot);
        AtFilterSound(cfg, checked, r);
        now' := now + r.filterTime;
        Interference(r.beforeFilter, now', checked.(now := now'));
        now', sent' := FilterStep(r, now', sent, AtFilter(checked, r));
      }
    }

    /** The part of an iteration up to its gate: returns the mode it loaded. */
    method Approach(r: Round, now: nat, ghost L: Loop) returns (now': nat, loaded: Mode)
      requires Valid() && Sound(cfg, L) && Shows(L) && L.now == now && r.grabbed
      modifies this, scd, aff
      ensures Valid() && frameSeq == old(frameSeq)
      ensures var top := AtModeLoad(cfg, L, r);
              loaded == top.mode && Shows(AtGate(top, r)) && now' == AtGate(top, r).now
    {
      ghost var start := L.(nextTick := L.nextTick + GrabInterval(cfg), now := now + r.grabTime);
      now' := now + r.grabTime;
      Interference(r.atTop, now', start);
      loaded := mode;
      ghost var top := AtModeLoad(cfg, L, r);
      now' := now' + r.gateTime;
      Interference(r.beforeGate, now', top.(now := now'));
    }

    /** One iteration of the loop body. */
    method Iteration(r: Round, now: nat, nextTick: nat, lastForced: nat, sent: seq<nat>, ghost L: Loop)
      returns (now': nat, lastForced': nat, sent': seq<nat>)
      requires Valid() && Sound(cfg, L) && Shows(L) && |r.gray| == cfg.aff.pixels
      requires L.now == now && L.nextTick + GrabInterval(cfg) == nextTick &&
         L.lastForced == lastForced && L.sent == sent
      modifies this, scd, aff
      ensures Valid() && Shows(Iterate(cfg, L, r))
      ensures var M := Iterate(cfg, L, r); now' == M.now && lastForced' == M.lastForced && sent' == M.sent
    {
      GateSound(cfg, L, r);
      ghost var top := AtModeLoad(cfg, L, r);
      lastForced', sent' := lastForced, sent;
      if !r.grabbed {
        now' := now + r.grabTime;
        Interference(r.atTop, now', L.(nextTick := nextTick, now := now'));
      } else {
        var loaded;
        now', loaded := Approach(r, now, L);
        ghost var M := AtGate(top, r);
        if loaded == Typing || loaded == Query {
          now', lastForced', sent' := ForcedStep(r, now', lastForced, sent, M);
          ForcedGateFollows(M, r);
        } else {
          now', sent' := IdleStep(r, now', sent, M);
          IdleGateFollows(cfg, M, r);
        }
      }
      if now' < nextTick {
        now' := nextTick + r.oversleep;
      }
    }

    /** The loop, over a finite script of iterations: it ends in the state of the specification. */
    method GrabLoop(rounds: seq<Round>, start: nat, ghost L: Loop)
      returns (now: nat, sent: seq<nat>, ghost end: Loop)
      requires Valid() && ProperRounds(cfg, rounds) && Sound(cfg, L) && Shows(L)
      requires L.now == L.nextTick == start && L.lastForced == 0 && L.sent == []
      modifies this, scd, aff
      ensures Valid() && end == RunRounds(cfg, L, rounds)
      ensures Shows(end) && now == end.now && sent == end.sent
    {
      var grabInterval := (SECOND as real / cfg.grabFps).Floor;
      var nextTick, lastForced: nat := start, 0;
      now, sent, end := start, [], L;
      for i := 0 to |rounds|
        invariant Valid() && end == RunRounds(cfg, L, rounds[..i]) && Shows(end)
        invariant now == end.now && sent == end.sent && nextTick == end.nextTick && lastForced == end.lastForced
      {
        assert rounds[..i + 1][..i] == rounds[..i];
        IterateSchedule(cfg, end, rounds[i]);
        nextTick := nextTick + grabInterval;
        now, lastForced, sent := Iteration(rounds[i], now, nextTick, lastForced, sent, end);
        end := Iterate(cfg, end, rounds[i]);
      }
      assert rounds[..|rounds|] == rounds;
    }
  }
}
