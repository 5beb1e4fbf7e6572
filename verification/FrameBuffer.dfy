/** The server session's frame buffer: bounded retention, the post-window wait shared by several
    queries, and the snapshot each query takes. Timestamps and the clock are in microseconds. */
module FrameBuffer {
  import opened Arithmetic
  import opened FramePacket
  import opened Options
  import Engine = VlmEngine

  const MAX_BUFFERED_FRAMES: nat := 30
  const DEFAULT_PRE_WINDOW_MS: nat := 3000
  const DEFAULT_POST_WINDOW_MS: nat := 3000
  const POST_WAIT_OVERHEAD_MS: nat := 2000

  /** A decoded frame; the image is an opaque label. */
  datatype Entry = Entry(ts: nat, image: int)

  datatype Decoded = Undecodable | Image(id: int)

  /** The deque: the last frames of everything accepted. */
  function Kept(accepted: seq<Entry>): (frames: seq<Entry>)
    ensures |frames| == if |accepted| < MAX_BUFFERED_FRAMES then |accepted| else MAX_BUFFERED_FRAMES
    ensures frames != [] ==> frames[|frames| - 1] == accepted[|accepted| - 1]
  {
    if |accepted| <= MAX_BUFFERED_FRAMES then accepted else accepted[|accepted| - MAX_BUFFERED_FRAMES..]
  }

  function Window(frames: seq<Entry>, lo: int, hi: int): seq<Entry> {
    if frames == [] then []
    else Window(frames[..|frames| - 1], lo, hi)
         + (if lo <= frames[|frames| - 1].ts <= hi then [frames[|frames| - 1]] else [])
  }

  /** A query as it arrives; zero windows stand for the defaults. */
  datatype Query = Query(hint: nat, trigger: int, preMs: nat, postMs: nat) {
    function Pre(): nat { if preMs == 0 then DEFAULT_PRE_WINDOW_MS else preMs }
    function Post(): nat { if postMs == 0 then DEFAULT_POST_WINDOW_MS else postMs }
    function Lo(): int { trigger - Pre() * 1000 }
    function Hi(): int { trigger + Post() * 1000 }
    function Patience(): nat { (Post() + POST_WAIT_OVERHEAD_MS) * 1000 }
  }

  function Suffix(frames: seq<Entry>, hint: nat): seq<Entry> {
    if 0 < hint < |frames| then frames[|frames| - hint..] else frames
  }

  /** The frames a query hands to the engine, given the buffer it sees. */
  function Snapshot(frames: seq<Entry>, q: Query): seq<Entry> {
    Suffix(if q.trigger > 0 then Window(frames, q.Lo(), q.Hi()) else frames, q.hint)
  }

  // ---- a query's times, in its own fields -------------------------------------------

  /** The frame is in the query's window: from `preMs` before the trigger to `postMs` after it, three seconds
      each where the query says nothing. */
  predicate AskedFor(ts: int, q: Query) {
    && ts >= q.trigger - 1000 * (if q.preMs == 0 then 3000 else q.preMs)
    && ts <= q.trigger + 1000 * (if q.postMs == 0 then 3000 else q.postMs)
  }

  /** The newest frame is what the query waits for: one at the end of its window or later. */
  predicate WaitedFor(frames: seq<Entry>, q: Query) {
    frames != [] && frames[|frames| - 1].ts >= q.trigger + 1000 * (if q.postMs == 0 then 3000 else q.postMs)
  }

  /** The query has waited two seconds longer than its post window. */
  predicate Overdue(waited: int, q: Query) {
    waited >= 1000 * ((if q.postMs == 0 then 3000 else q.postMs) + 2000)
  }

  // ---- window and retention ---------------------------------------------------------

  ghost predicate Increasing(log: seq<Entry>) {
    forall i, j | 0 <= i < j < |log| :: log[i].ts < log[j].ts
  }

  ghost predicate Spaced(log: seq<Entry>, gap: nat) {
    forall i | 0 <= i < |log| - 1 :: log[i + 1].ts - log[i].ts >= gap
  }

  predicate Within(e: Entry, lo: int, hi: int) {
    lo <= e.ts <= hi
  }

  lemma {:induction false} WindowConcat(a: seq<Entry>, b: seq<Entry>, lo: int, hi: int)
    ensures Window(a + b, lo, hi) == Window(a, lo, hi) + Window(b, lo, hi)
  {
    if b == [] {
      assert a + b == a;
    } else {
      assert (a + b)[..|a + b| - 1] == a + b[..|b| - 1];
      WindowConcat(a, b[..|b| - 1], lo, hi);
    }
  }

  lemma {:induction false} WindowEmpty(a: seq<Entry>, lo: int, hi: int)
    ensures Window(a, lo, hi) == [] <==> forall i | 0 <= i < |a| :: !Within(a[i], lo, hi)
  {
    if a != [] {
      var init := a[..|a| - 1];
      WindowEmpty(init, lo, hi);
      assert forall i | 0 <= i < |init| :: init[i] == a[i];
      assert Window(a, lo, hi) == [] ==> !Within(a[|a| - 1], lo, hi);
    }
  }

  /** Where the frames of a window are in the sequence it was taken from. */
  function Places(frames: seq<Entry>, lo: int, hi: int): seq<nat> {
    if frames == [] then []
    else
      var n := |frames| - 1;
      Places(frames[..n], lo, hi) + if lo <= frames[n].ts <= hi then [n] else []
  }

  /** A window is the frames with timestamps between its ends, both included, each once and in order. */
  lemma {:induction false} WindowSelects(frames: seq<Entry>, lo: int, hi: int)
    ensures Engine.Subsequence(Window(frames, lo, hi), frames, Places(frames, lo, hi))
    ensures forall i: nat :: i in Places(frames, lo, hi) <==> i < |frames| && lo <= frames[i].ts && frames[i].ts <= hi
  {
    if frames != [] {
      var n := |frames| - 1;
      WindowSelects(frames[..n], lo, hi);
      var before, at := Places(frames[..n], lo, hi), Places(frames, lo, hi);
      forall i: nat ensures i in at <==> i < |frames| && lo <= frames[i].ts && frames[i].ts <= hi {
        assert i in before <==> i < n && lo <= frames[..n][i].ts && frames[..n][i].ts <= hi;
      }
      forall k | 0 <= k < |before| ensures before[k] < n {
        assert before[k] in before;
      }
    }
  }

  /** The buffer after `seen` frames holds the frames from here on. */
  function Oldest(seen: nat): nat {
    if seen <= MAX_BUFFERED_FRAMES then 0 else seen - MAX_BUFFERED_FRAMES
  }

  /** Every frame is one of a kind, as decoded images are. */
  ghost predicate Distinguishable(log: seq<Entry>) {
    forall i, j | 0 <= i < j < |log| :: log[i] != log[j]
  }

  lemma {:induction false} WindowMembers(a: seq<Entry>, lo: int, hi: int)
    ensures forall e :: e in Window(a, lo, hi) ==> e in a
  {
    if a != [] {
      WindowMembers(a[..|a| - 1], lo, hi);
    }
  }

  ghost predicate NoneIn(log: seq<Entry>, from: nat, to: nat, lo: int, hi: int)
    requires from <= to <= |log|
  {
    forall i | from <= i < to :: !Within(log[i], lo, hi)
  }

  lemma WindowParts(log: seq<Entry>, seen: nat, lo: int, hi: int)
    requires seen <= |log|
    ensures Window(log, lo, hi)
            == Window(log[..Oldest(seen)], lo, hi) + Window(Kept(log[..seen]), lo, hi) + Window(log[seen..], lo, hi)
    ensures Window(log[..Oldest(seen)], lo, hi) == [] <==> NoneIn(log, 0, Oldest(seen), lo, hi)
    ensures Window(log[seen..], lo, hi) == [] <==> NoneIn(log, seen, |log|, lo, hi)
  {
    var evicted, kept, later := log[..Oldest(seen)], Kept(log[..seen]), log[seen..];
    assert log == evicted + kept + later;
    WindowConcat(evicted + kept, later, lo, hi);
    WindowConcat(evicted, kept, lo, hi);
    WindowEmpty(evicted, lo, hi);
    WindowEmpty(later, lo, hi);
    assert forall i | seen <= i < |log| :: later[i - seen] == log[i];
    assert forall i | 0 <= i < Oldest(seen) :: evicted[i] == log[i];
  }

  /** A window taken over the buffer equals the window over the whole history, past and future,
      exactly when neither an evicted frame nor a later one falls inside it. */
  lemma WindowExact(log: seq<Entry>, seen: nat, lo: int, hi: int)
    requires seen <= |log|
    ensures Window(Kept(log[..seen]), lo, hi) == Window(log, lo, hi) <==>
            NoneIn(log, 0, Oldest(seen), lo, hi) && NoneIn(log, seen, |log|, lo, hi)
  {
    WindowParts(log, seen, lo, hi);
    var evicted, w, later :=
      Window(log[..Oldest(seen)], lo, hi), Window(Kept(log[..seen]), lo, hi), Window(log[seen..], lo, hi);
    if evicted == [] && later == [] {
      assert [] + w + [] == w;
    }
    assert |evicted + w + later| == |evicted| + |w| + |later|;
  }

  lemma LastsDiffer(log: seq<Entry>, seen: nat, lo: int, hi: int)
    requires seen <= |log| && Distinguishable(log)
    requires Window(Kept(log[..seen]), lo, hi) != [] && Window(log[seen..], lo, hi) != []
    ensures var kept, later := Window(Kept(log[..seen]), lo, hi), Window(log[seen..], lo, hi);
            kept[|kept| - 1] != later[|later| - 1]
  {
    var kept, later := Window(Kept(log[..seen]), lo, hi), Window(log[seen..], lo, hi);
    WindowMembers(Kept(log[..seen]), lo, hi);
    WindowMembers(log[seen..], lo, hi);
    assert kept[|kept| - 1] in Kept(log[..seen]) && later[|later| - 1] in log[seen..];
    assert kept[|kept| - 1] in log[..seen];
  }

  /** The hint takes its frames from the end of the window, and the buffer holds that many. */
  predicate HintMet(kept: nat, hint: nat) {
    0 < hint <= kept
  }

  lemma SuffixOfParts(evicted: seq<Entry>, kept: seq<Entry>, later: seq<Entry>, hint: nat)
    ensures later == [] && (evicted == [] || HintMet(|kept|, hint)) ==>
              Suffix(kept, hint) == Suffix(evicted + kept + later, hint)
    ensures Suffix(kept, hint) == Suffix(evicted + kept + later, hint) ==>
              || (later == [] && (evicted == [] || HintMet(|kept|, hint)))
              || (HintMet(|kept|, hint) && later != [] && kept[|kept| - 1] == later[|later| - 1])
  {
    var all := evicted + kept + later;
    var a, b := Suffix(kept, hint), Suffix(all, hint);
    if later == [] {
      assert all == evicted + kept;
      if evicted == [] {
        assert all == kept;
      }
    } else if HintMet(|kept|, hint) {
      assert a != [] && a[|a| - 1] == kept[|kept| - 1] && b[|b| - 1] == later[|later| - 1];
    } else {
      assert |b| > |a|;
    }
  }

  function Times(log: seq<Entry>): (r: seq<nat>)
    ensures |r| == |log| && forall i | 0 <= i < |log| :: r[i] == log[i].ts
  {
    seq(|log|, i requires 0 <= i < |log| => log[i].ts)
  }

  /** With frames at least `gap` apart, everything newer than thirty gaps before the newest is still buffered. */
  lemma Retention(log: seq<Entry>, gap: nat, i: nat)
    requires i < |log| && Spaced(log, gap)
    requires log[i].ts > log[|log| - 1].ts - 30 * gap
    ensures Oldest(|log|) <= i && log[i] == Kept(log)[i - Oldest(|log|)]
  {
    if i < Oldest(|log|) {
      SpacedSpread(Times(log), gap, i, |log| - 1);
      MulMonotone(MAX_BUFFERED_FRAMES, |log| - 1 - i, gap);
      assert false;
    }
  }

  // ---- the waiting queries ----------------------------------------------------------

  datatype Why = ByFrame | ByDeadline | ByTimeout | Untriggered

  /** A query in progress. `Launching` exists only where `wait_for` starts `wait()` in a task of its own. */
  datatype Waiter =
    | Suspended(q: Query, asked: nat, woken: bool)
    | Launching(q: Query, asked: nat)
    | Done(q: Query, asked: nat, why: Why, seen: nat, snapshot: seq<Entry>)

  datatype State = State(now: nat, accepted: seq<Entry>, event: bool, waiters: map<nat, Waiter>)

  datatype Action =
    | Tick(elapsed: nat)
    | Frame(e: Entry)
    | Ask(id: nat, q: Query)
    | Resume(id: nat)
    | Timeout(id: nat)
    | Launch(id: nat)

  const INIT := State(0, [], false, map[])

  function Finish(s: State, q: Query, asked: nat, why: Why): Waiter {
    Done(q, asked, why, |s.accepted|, Snapshot(Kept(s.accepted), q))
  }

  predicate NewestReaches(frames: seq<Entry>, target: int) {
    frames != [] && frames[|frames| - 1].ts >= target
  }

  /** The wait loop from its top to the next suspension: check, clear, deadline, wait. A query that
      leaves the loop takes its snapshot in the same step. */
  function Check(split: bool, s: State, id: nat, q: Query, asked: nat): State {
    if NewestReaches(Kept(s.accepted), q.Hi()) then
      s.(waiters := s.waiters[id := Finish(s, q, asked, ByFrame)])
    else if asked + q.Patience() <= s.now then
      s.(event := false, waiters := s.waiters[id := Finish(s, q, asked, ByDeadline)])
    else
      s.(event := false, waiters := s.waiters[id := if split then Launching(q, asked) else Suspended(q, asked, false)])
  }

  function Wake(w: Waiter): Waiter {
    if w.Suspended? then w.(woken := true) else w
  }

  function Step(split: bool, s: State, a: Action): Option<State> {
    match a
    case Tick(d) => Some(s.(now := s.now + d))
    case Frame(e) =>
      Some(s.(accepted := s.accepted + [e], event := true, waiters := map id | id in s.waiters :: Wake(s.waiters[id])))
    case Ask(id, q) =>
      if id in s.waiters then None
      else if q.trigger <= 0 then Some(s.(waiters := s.waiters[id := Finish(s, q, s.now, Untriggered)]))
      else Some(Check(split, s, id, q, s.now))
    case Resume(id) =>
      if id in s.waiters && s.waiters[id].Suspended? && s.waiters[id].woken
      then Some(Check(split, s, id, s.waiters[id].q, s.waiters[id].asked)) else None
    case Timeout(id) =>
      if id in s.waiters && s.waiters[id].Suspended? && s.waiters[id].asked + s.waiters[id].q.Patience() <= s.now
      then Some(s.(waiters := s.waiters[id := Finish(s, s.waiters[id].q, s.waiters[id].asked, ByTimeout)])) else None
    case Launch(id) =>
      if id in s.waiters && s.waiters[id].Launching?
      then Some(s.(waiters := s.waiters[id := Suspended(s.waiters[id].q, s.waiters[id].asked, s.event)])) else None
  }

  function Run(split: bool, actions: seq<Action>): Option<State> {
    if actions == [] then Some(INIT)
    else match Run(split, actions[..|actions| - 1])
         case None => None
         case Some(s) => Step(split, s, actions[|actions| - 1])
  }

  lemma {:induction false} InWindow(frames: seq<Entry>, lo: int, hi: int, e: Entry)
    ensures e in Window(frames, lo, hi) <==> e in frames && lo <= e.ts && e.ts <= hi
  {
    if frames != [] {
      var init := frames[..|frames| - 1];
      InWindow(init, lo, hi, e);
      assert frames == init + [frames[|frames| - 1]];
    }
  }

  /** The hint's suffix: as many frames as asked for, if there are more, from the end. */
  ghost predicate EndOf(r: seq<Entry>, all: seq<Entry>, hint: nat) {
    && |r| == (if 0 < hint < |all| then hint else |all|)
    && forall i | 0 <= i < |r| :: r[i] == all[|all| - |r| + i]
  }

  lemma SuffixEnds(all: seq<Entry>, hint: nat)
    ensures EndOf(Suffix(all, hint), all, hint)
  {
  }

  lemma WindowHolds(frames: seq<Entry>, q: Query)
    ensures forall e :: e in Window(frames, q.Lo(), q.Hi()) <==> e in frames && AskedFor(e.ts, q)
  {
    forall e ensures e in Window(frames, q.Lo(), q.Hi()) <==> e in frames && AskedFor(e.ts, q) {
      InWindow(frames, q.Lo(), q.Hi(), e);
    }
  }

  /** What a single query's record says about the clock and the history. */
  ghost predicate Honest(split: bool, now: nat, log: seq<Entry>, w: Waiter) {
    match w
    case Suspended(q, asked, woken) =>
      q.trigger > 0 && asked <= now && (!woken && !split ==> !NewestReaches(log, q.Hi()))
    case Launching(q, asked) => split && q.trigger > 0 && asked <= now
    case Done(q, asked, why, seen, snapshot) =>
      && seen <= |log|
      && snapshot == Snapshot(Kept(log[..seen]), q)
      && (why == Untriggered <==> q.trigger <= 0)
      && (why == ByFrame ==> NewestReaches(log[..seen], q.Hi()))
      && (why == ByDeadline ==> !NewestReaches(log[..seen], q.Hi()))
      && (why == ByDeadline || why == ByTimeout ==> asked + q.Patience() <= now)
  }

  ghost predicate AllHonest(split: bool, now: nat, log: seq<Entry>, waiters: map<nat, Waiter>) {
    forall id | id in waiters :: Honest(split, now, log, waiters[id])
  }

  ghost predicate Inv(split: bool, s: State) {
    AllHonest(split, s.now, s.accepted, s.waiters)
  }

  lemma FinishHonest(split: bool, s: State, q: Query, asked: nat, why: Why)
    requires why == Untriggered <==> q.trigger <= 0
    requires why == ByFrame ==> NewestReaches(s.accepted, q.Hi())
    requires why == ByDeadline ==> !NewestReaches(s.accepted, q.Hi())
    requires why == ByDeadline || why == ByTimeout ==> asked + q.Patience() <= s.now
    ensures Honest(split, s.now, s.accepted, Finish(s, q, asked, why))
  {
    assert s.accepted[..|s.accepted|] == s.accepted;
  }

  lemma TickHonest(split: bool, now: nat, later: nat, log: seq<Entry>, w: Waiter)
    requires Honest(split, now, log, w) && now <= later
    ensures Honest(split, later, log, w)
  {
  }

  lemma FrameHonest(split: bool, now: nat, log: seq<Entry>, w: Waiter, e: Entry)
    requires Honest(split, now, log, w)
    ensures Honest(split, now, log + [e], Wake(w))
  {
    if w.Done? {
      assert (log + [e])[..w.seen] == log[..w.seen];
    }
  }

  lemma PutHonest(split: bool, now: nat, log: seq<Entry>, waiters: map<nat, Waiter>, id: nat, w: Waiter)
    requires AllHonest(split, now, log, waiters) && Honest(split, now, log, w)
    ensures AllHonest(split, now, log, waiters[id := w])
  {
  }

  lemma CheckHonest(split: bool, s: State, id: nat, q: Query, asked: nat)
    requires Inv(split, s) && q.trigger > 0 && asked <= s.now
    ensures Inv(split, Check(split, s, id, q, asked))
  {
    if NewestReaches(Kept(s.accepted), q.Hi()) {
      FinishHonest(split, s, q, asked, ByFrame);
    } else if asked + q.Patience() <= s.now {
      FinishHonest(split, s, q, asked, ByDeadline);
    }
    PutHonest(split, s.now, s.accepted, s.waiters, id, Check(split, s, id, q, asked).waiters[id]);
  }

  lemma StepInv(split: bool, s: State, a: Action)
    requires Inv(split, s) && Step(split, s, a).Some?
    ensures Inv(split, Step(split, s, a).value)
  {
    match a
    case Tick(d) =>
      forall id | id in s.waiters ensures Honest(split, s.now + d, s.accepted, s.waiters[id]) {
        TickHonest(split, s.now, s.now + d, s.accepted, s.waiters[id]);
      }
    case Frame(e) =>
      forall id | id in s.waiters ensures Honest(split, s.now, s.accepted + [e], Wake(s.waiters[id])) {
        FrameHonest(split, s.now, s.accepted, s.waiters[id], e);
      }
    case Ask(id, q) =>
      if q.trigger <= 0 {
        FinishHonest(split, s, q, s.now, Untriggered);
        PutHonest(split, s.now, s.accepted, s.waiters, id, Finish(s, q, s.now, Untriggered));
      } else {
        CheckHonest(split, s, id, q, s.now);
      }
    case Resume(id) => CheckHonest(split, s, id, s.waiters[id].q, s.waiters[id].asked);
    case Timeout(id) =>
      FinishHonest(split, s, s.waiters[id].q, s.waiters[id].asked, ByTimeout);
      PutHonest(split, s.now, s.accepted, s.waiters, id, Finish(s, s.waiters[id].q, s.waiters[id].asked, ByTimeout));
    case Launch(id) =>
      PutHonest(split, s.now, s.accepted, s.waiters, id, Suspended(s.waiters[id].q, s.waiters[id].asked, s.event));
  }

  lemma {:induction false} RunInv(split: bool, actions: seq<Action>)
    ensures Run(split, actions).Some? ==> Inv(split, Run(split, actions).value)
  {
    if actions != [] {
      RunInv(split, actions[..|actions| - 1]);
      if Run(split, actions).Some? {
        StepInv(split, Run(split, actions[..|actions| - 1]).value, actions[|actions| - 1]);
      }
    }
  }

  lemma AllBelow(log: seq<Entry>, target: int)
    requires Increasing(log) && !NewestReaches(log, target)
    ensures forall i | 0 <= i < |log| :: log[i].ts < target
  {
  }

  /** The earliest time a query can wait for: its trigger is positive and its window a millisecond or more. */
  const EARLIEST_TARGET: nat := 1001

  /** No buffered frame is ahead of the newest one, but for any too old to be waited for. */
  predicate NewestLeads(frames: seq<Entry>) {
    forall i | 0 <= i < |frames| :: frames[i].ts <= frames[|frames| - 1].ts || frames[i].ts < EARLIEST_TARGET
  }

  predicate Sleeping(w: Waiter) {
    w.Suspended? && !w.woken
  }

  /** No query sleeps beside a buffered frame it is waiting for. */
  ghost predicate SleepersMissNothing(s: State) {
    forall id, i | id in s.waiters && Sleeping(s.waiters[id]) && 0 <= i < |Kept(s.accepted)| ::
      Kept(s.accepted)[i].ts < s.waiters[id].q.Hi()
  }

  lemma LeadingNewest(s: State)
    requires Inv(false, s) && NewestLeads(Kept(s.accepted))
    ensures SleepersMissNothing(s)
  {
    forall id | id in s.waiters && Sleeping(s.waiters[id])
      ensures !NewestReaches(s.accepted, s.waiters[id].q.Hi()) && s.waiters[id].q.Hi() >= EARLIEST_TARGET
    {
      assert Honest(false, s.now, s.accepted, s.waiters[id]);
    }
  }

  /** No lost wakeup, for any number of queries sharing and clearing one event: a query that sleeps
      unsignalled has nothing to wake for. Where the newest buffered frame leads, no buffered frame
      qualifies; in timestamp order, no accepted frame ever did. */
  lemma NoLostWakeup(actions: seq<Action>, s: State, id: nat)
    requires Run(false, actions) == Some(s) && id in s.waiters && Sleeping(s.waiters[id])
    ensures !NewestReaches(s.accepted, s.waiters[id].q.Hi())
    ensures NewestLeads(Kept(s.accepted)) ==>
              forall i | 0 <= i < |Kept(s.accepted)| :: Kept(s.accepted)[i].ts < s.waiters[id].q.Hi()
    ensures Increasing(s.accepted) ==> forall i | 0 <= i < |s.accepted| :: s.accepted[i].ts < s.waiters[id].q.Hi()
  {
    RunInv(false, actions);
    assert Honest(false, s.now, s.accepted, s.waiters[id]);
    if NewestLeads(Kept(s.accepted)) {
      LeadingNewest(s);
    }
    if Increasing(s.accepted) {
      AllBelow(s.accepted, s.waiters[id].q.Hi());
    }
  }

  lemma {:induction false} Bound(ids: set<nat>) returns (n: nat)
    ensures forall id | id in ids :: id < n
  {
    if ids == {} {
      n := 0;
    } else {
      var id :| id in ids;
      var below := Bound(ids - {id});
      n := if below <= id then id + 1 else below;
      forall x | x in ids ensures x < n {
        assert x == id || x in ids - {id};
      }
    }
  }

  /** The query that would sleep beside frame `i`. */
  lemma SleepsBeside(s: State, i: nat) returns (id: nat, q: Query)
    requires i < |Kept(s.accepted)| && Kept(s.accepted)[i].ts >= EARLIEST_TARGET
    requires Kept(s.accepted)[i].ts > Kept(s.accepted)[|Kept(s.accepted)| - 1].ts
    ensures id !in s.waiters && Step(false, s, Ask(id, q)).Some?
    ensures !SleepersMissNothing(Step(false, s, Ask(id, q)).value)
  {
    id := Bound(s.waiters.Keys);
    var ts := Kept(s.accepted)[i].ts;
    q := Query(0, ts - 1000, 1, 1);
    var t := Step(false, s, Ask(id, q)).value;
    assert t.accepted == s.accepted && t.waiters[id] == Suspended(q, s.now, false);
  }

  lemma AskedMissNothing(s: State, id: nat, q: Query)
    requires Inv(false, s) && NewestLeads(Kept(s.accepted)) && Step(false, s, Ask(id, q)).Some?
    ensures SleepersMissNothing(Step(false, s, Ask(id, q)).value)
  {
    StepInv(false, s, Ask(id, q));
    assert Step(false, s, Ask(id, q)).value.accepted == s.accepted;
    LeadingNewest(Step(false, s, Ask(id, q)).value);
  }

  /** In a reachable state, no query asked now can sleep beside a buffered frame it is waiting for, and
      none that sleeps already does, if and only if the newest buffered frame leads. */
  lemma SleepExactly(actions: seq<Action>, s: State)
    requires Run(false, actions) == Some(s)
    ensures NewestLeads(Kept(s.accepted)) <==>
            SleepersMissNothing(s) && forall id, q :: Step(false, s, Ask(id, q)).Some? ==>
                                                        SleepersMissNothing(Step(false, s, Ask(id, q)).value)
  {
    RunInv(false, actions);
    hide Run, Inv, Step, Kept, SleepersMissNothing;
    if NewestLeads(Kept(s.accepted)) {
      LeadingNewest(s);
      forall id, q | Step(false, s, Ask(id, q)).Some?
        ensures SleepersMissNothing(Step(false, s, Ask(id, q)).value)
      {
        AskedMissNothing(s, id, q);
      }
    } else {
      var frames := Kept(s.accepted);
      var i: nat :| i < |frames| && frames[i].ts > frames[|frames| - 1].ts && frames[i].ts >= EARLIEST_TARGET;
      var id, q := SleepsBeside(s, i);
    }
  }

  /** A query gives up only once its whole patience has passed; one that met its deadline at the top
      of the loop had no qualifying newest frame. */
  lemma GivesUpOnlyLate(split: bool, actions: seq<Action>, s: State, id: nat)
    requires Run(split, actions) == Some(s) && id in s.waiters && s.waiters[id].Done?
    requires s.waiters[id].q.trigger > 0 && s.waiters[id].why != ByFrame
    ensures Overdue(s.now - s.waiters[id].asked, s.waiters[id].q)
    ensures s.waiters[id].seen <= |s.accepted|
    ensures s.waiters[id].why == ByDeadline ==> !WaitedFor(s.accepted[..s.waiters[id].seen], s.waiters[id].q)
  {
    RunInv(split, actions);
    assert Honest(split, s.now, s.accepted, s.waiters[id]);
  }

  /** The buffer was enough for the query: no later frame is in its window, and no evicted one is either
      unless the hint was already met by the buffered ones. */
  ghost predicate BufferSuffices(log: seq<Entry>, seen: nat, q: Query)
    requires seen <= |log|
  {
    && NoneIn(log, seen, |log|, q.Lo(), q.Hi())
    && (NoneIn(log, 0, Oldest(seen), q.Lo(), q.Hi()) || HintMet(|Window(Kept(log[..seen]), q.Lo(), q.Hi())|, q.hint))
  }

  /** Whatever ended the wait and in whatever order frames came: if the buffer was enough, the snapshot is
      the selection over everything accepted up to now; and it is only then, where frames are one of a kind
      or the hint is not met by the buffered ones. */
  lemma SnapshotExact(split: bool, actions: seq<Action>, s: State, id: nat)
    requires Run(split, actions) == Some(s) && id in s.waiters && s.waiters[id].Done?
    requires s.waiters[id].q.trigger > 0
    ensures s.waiters[id].seen <= |s.accepted|
    ensures var w := s.waiters[id];
            BufferSuffices(s.accepted, w.seen, w.q) ==> w.snapshot == Snapshot(s.accepted, w.q)
    ensures var w := s.waiters[id];
            var kept := |Window(Kept(s.accepted[..w.seen]), w.q.Lo(), w.q.Hi())|;
            Distinguishable(s.accepted) || !HintMet(kept, w.q.hint) ==>
              (w.snapshot == Snapshot(s.accepted, w.q) <==> BufferSuffices(s.accepted, w.seen, w.q))
  {
    RunInv(split, actions);
    var w, log := s.waiters[id], s.accepted;
    assert Honest(split, s.now, log, w);
    var lo, hi := w.q.Lo(), w.q.Hi();
    var evicted, kept, later :=
      Window(log[..Oldest(w.seen)], lo, hi), Window(Kept(log[..w.seen]), lo, hi), Window(log[w.seen..], lo, hi);
    WindowParts(log, w.seen, lo, hi);
    SuffixOfParts(evicted, kept, later, w.q.hint);
    if Distinguishable(log) && kept != [] && later != [] {
      LastsDiffer(log, w.seen, lo, hi);
    }
  }

  /** The guard under which a returned query missed nothing: nothing had been evicted, or the oldest
      buffered frame was not newer than the window's start. */
  predicate CoversPast(log: seq<Entry>, seen: nat, lo: int) {
    seen <= MAX_BUFFERED_FRAMES || (seen <= |log| && log[Oldest(seen)].ts <= lo)
  }

  /** Snapshot completeness: in timestamp order, a query woken by a frame saw the selection over the
      entire past and over every continuation, since `s` is any later state. */
  lemma SnapshotComplete(split: bool, actions: seq<Action>, s: State, id: nat)
    requires Run(split, actions) == Some(s) && id in s.waiters && s.waiters[id].Done?
    requires s.waiters[id].why == ByFrame && Increasing(s.accepted)
    requires CoversPast(s.accepted, s.waiters[id].seen, s.waiters[id].q.Lo())
    ensures s.waiters[id].snapshot == Snapshot(s.accepted, s.waiters[id].q)
  {
    RunInv(split, actions);
    var w := s.waiters[id];
    assert Honest(split, s.now, s.accepted, w);
    var newest := s.accepted[w.seen - 1];
    assert s.accepted[..w.seen][w.seen - 1] == newest;
    forall i | 0 <= i < |s.accepted| && (i < Oldest(w.seen) || w.seen <= i)
      ensures !Within(s.accepted[i], w.q.Lo(), w.q.Hi())
    {
      if i < Oldest(w.seen) {
        assert s.accepted[i].ts < s.accepted[Oldest(w.seen)].ts;
      } else {
        assert newest.ts < s.accepted[i].ts;
      }
    }
    WindowExact(s.accepted, w.seen, w.q.Lo(), w.q.Hi());
  }

  /** Frames at least `gap` apart and a window that starts within thirty gaps of the newest frame
      meet the guard: nothing the window wants has been evicted. */
  lemma SpacedFramesCover(log: seq<Entry>, seen: nat, gap: nat, lo: int)
    requires 0 < seen <= |log| && Spaced(log, gap) && gap > 0
    requires log[seen - 1].ts - lo <= (MAX_BUFFERED_FRAMES - 1) * gap
    ensures CoversPast(log, seen, lo)
  {
    if seen > MAX_BUFFERED_FRAMES {
      SpacedSpread(Times(log), gap, Oldest(seen), seen - 1);
    }
  }

  // ---- where the hypotheses matter --------------------------------------------------

  lemma RunExtend(split: bool, actions: seq<Action>, a: Action)
    ensures Run(split, actions + [a]) ==
            match Run(split, actions) case None => None case Some(s) => Step(split, s, a)
  {
    assert (actions + [a])[..|actions|] == actions;
  }

  /** Out of timestamp order the waiter can sleep although a qualifying frame is buffered. */
  lemma ReorderedFrameStrandsWaiter() returns (actions: seq<Action>, s: State)
    ensures Run(false, actions) == Some(s) && 0 in s.waiters
    ensures s.waiters[0].Suspended? && !s.waiters[0].woken
    ensures exists i | 0 <= i < |Kept(s.accepted)| :: Kept(s.accepted)[i].ts >= s.waiters[0].q.Hi()
  {
    var q := Query(0, 1_000, 1, 1);
    var late, early := Entry(5_000, 1), Entry(1_500, 2);
    actions := [Frame(late)] + [Frame(early)] + [Ask(0, q)];
    RunExtend(false, [], Frame(late));
    assert [] + [Frame(late)] == [Frame(late)];
    RunExtend(false, [Frame(late)], Frame(early));
    RunExtend(false, [Frame(late)] + [Frame(early)], Ask(0, q));
    s := Run(false, actions).value;
    assert s.accepted == [late, early];
    assert Kept(s.accepted)[0].ts >= q.Hi();
  }

  /** Where `wait_for` starts the wait in a task of its own, a second query can clear the event in
      between, and the first one sleeps past a frame it was waiting for, in timestamp order. */
  lemma SplitWaitLosesWakeup() returns (actions: seq<Action>, s: State)
    ensures Run(true, actions) == Some(s) && 0 in s.waiters && Increasing(s.accepted)
    ensures s.waiters[0].Suspended? && !s.waiters[0].woken && NewestReaches(s.accepted, s.waiters[0].q.Hi())
  {
    var near, far := Query(0, 1_000, 1, 1), Query(0, 9_000, 1, 1);
    var f := Entry(5_000, 1);
    var a1: seq<Action> := [Ask(0, near)];
    var a2 := a1 + [Frame(f)];
    var a3 := a2 + [Ask(1, far)];
    actions := a3 + [Launch(0)];
    RunExtend(true, [], Ask(0, near));
    assert [] + a1 == a1;
    RunExtend(true, a1, Frame(f));
    RunExtend(true, a2, Ask(1, far));
    RunExtend(true, a3, Launch(0));
    assert Run(true, a1).value.waiters == map[0 := Launching(near, 0)];
    assert Run(true, a2).value.waiters == map[0 := Launching(near, 0)];
    s := Run(true, actions).value;
    assert s.accepted == [f];
  }

  // ---- the wait in a task of its own ------------------------------------------------

  /** A query between its check and its sleep, or asleep, will notice the newest frame if it qualifies. */
  predicate Heeds(w: Waiter, event: bool, log: seq<Entry>) {
    match w
    case Suspended(q, _, woken) => woken || !NewestReaches(log, q.Hi())
    case Launching(q, _) => event || !NewestReaches(log, q.Hi())
    case Done(_, _, _, _, _) => true
  }

  ghost predicate AllHeed(s: State) {
    forall id | id in s.waiters :: Heeds(s.waiters[id], s.event, s.accepted)
  }

  /** The step runs a check that goes on to clear the event. */
  predicate Clears(s: State, a: Action) {
    match a
    case Ask(id, q) => id !in s.waiters && q.trigger > 0 && !NewestReaches(s.accepted, q.Hi())
    case Resume(id) =>
      id in s.waiters && s.waiters[id].Suspended? && s.waiters[id].woken
      && !NewestReaches(s.accepted, s.waiters[id].q.Hi())
    case _ => false
  }

  /** It does so while another query, between its own check and its sleep, has its frame already. */
  ghost predicate ClearsOver(s: State, a: Action) {
    Clears(s, a) && exists id | id in s.waiters ::
      s.waiters[id].Launching? && NewestReaches(s.accepted, s.waiters[id].q.Hi())
  }

  /** With the wait in a task of its own, a wakeup is lost exactly in the steps that clear the event over
      a query that is about to sleep. */
  lemma SplitStep(s: State, a: Action)
    requires AllHeed(s) && Step(true, s, a).Some?
    ensures AllHeed(Step(true, s, a).value) <==> !ClearsOver(s, a)
  {
    var t := Step(true, s, a).value;
    if ClearsOver(s, a) {
      var id :| id in s.waiters && s.waiters[id].Launching? && NewestReaches(s.accepted, s.waiters[id].q.Hi());
      assert id in t.waiters && t.waiters[id] == s.waiters[id] && !t.event;
      assert !Heeds(t.waiters[id], t.event, t.accepted);
    }
  }

  lemma {:induction false} PrefixRuns(split: bool, actions: seq<Action>, i: nat)
    requires Run(split, actions).Some? && i <= |actions|
    ensures Run(split, actions[..i]).Some?
    ensures i < |actions| ==> Run(split, actions[..i + 1]) == Step(split, Run(split, actions[..i]).value, actions[i])
  {
    hide Step;
    if i == |actions| {
      assert actions[..i] == actions;
    } else {
      var init := actions[..|actions| - 1];
      if i + 1 < |actions| {
        assert init[..i] == actions[..i] && init[..i + 1] == actions[..i + 1];
        PrefixRuns(split, init, i);
      } else {
        assert actions[..i + 1] == actions;
      }
    }
  }

  ghost predicate HeedAt(actions: seq<Action>, i: nat)
    requires i <= |actions|
  {
    Run(true, actions[..i]).Some? ==> AllHeed(Run(true, actions[..i]).value)
  }

  ghost predicate SparesAt(actions: seq<Action>, i: nat)
    requires i < |actions|
  {
    Run(true, actions[..i]).Some? ==> !ClearsOver(Run(true, actions[..i]).value, actions[i])
  }

  lemma HeedNext(actions: seq<Action>, i: nat)
    requires Run(true, actions).Some? && i < |actions| && HeedAt(actions, i)
    ensures HeedAt(actions, i + 1) <==> SparesAt(actions, i)
  {
    hide Run, Step, AllHeed, ClearsOver;
    PrefixRuns(true, actions, i);
    PrefixRuns(true, actions, i + 1);
    SplitStep(Run(true, actions[..i]).value, actions[i]);
  }

  lemma {:induction false} SparesMeansHeed(actions: seq<Action>, n: nat)
    requires Run(true, actions).Some? && n <= |actions|
    requires forall i | 0 <= i < n :: SparesAt(actions, i)
    ensures HeedAt(actions, n)
  {
    if n == 0 {
      assert actions[..0] == [];
    } else {
      hide HeedAt, SparesAt, Run;
      SparesMeansHeed(actions, n - 1);
      HeedNext(actions, n - 1);
    }
  }

  /** Over a whole run with the wait in a task of its own, no query ever sleeps, or is about to sleep, past
      a newest frame it waits for, if and only if no step clears the event over one about to sleep. */
  lemma SplitExactly(actions: seq<Action>)
    requires Run(true, actions).Some?
    ensures (forall i | 0 <= i <= |actions| :: HeedAt(actions, i)) <==>
            (forall i | 0 <= i < |actions| :: SparesAt(actions, i))
  {
    hide HeedAt, SparesAt, Run;
    if forall i | 0 <= i < |actions| :: SparesAt(actions, i) {
      forall n | 0 <= n <= |actions| ensures HeedAt(actions, n) {
        SparesMeansHeed(actions, n);
      }
    }
    if forall i | 0 <= i <= |actions| :: HeedAt(actions, i) {
      forall i | 0 <= i < |actions| ensures SparesAt(actions, i) {
        HeedNext(actions, i);
      }
    }
  }

  // ---- from the buffer to the model -------------------------------------------------

  /** What the engine feeds the model: at most four frames of the snapshot. */
  function ModelInput(frames: seq<Entry>, q: Query): seq<Entry> {
    Engine.SampleFrames(Snapshot(frames, q), Engine.MAX_FRAMES)
  }

  lemma {:induction false} WindowKeepsOrder(frames: seq<Entry>, lo: int, hi: int)
    requires Increasing(frames)
    ensures Increasing(Window(frames, lo, hi))
    ensures forall e :: e in Window(frames, lo, hi) <==> e in frames && Within(e, lo, hi)
  {
    if frames != [] {
      var init, last := frames[..|frames| - 1], frames[|frames| - 1];
      WindowKeepsOrder(init, lo, hi);
      assert frames == init + [last];
      forall i | 0 <= i < |Window(init, lo, hi)| ensures Window(init, lo, hi)[i].ts < last.ts {
        assert Window(init, lo, hi)[i] in init;
      }
    }
  }

  /** All the frames a query may use, before the hint and the sampling. */
  function Selected(frames: seq<Entry>, q: Query): seq<Entry> {
    if q.trigger > 0 then Window(frames, q.Lo(), q.Hi()) else frames
  }

  /** Position in the selection of each frame the model gets. */
  function InputPositions(all: nat, hint: nat): seq<nat> {
    var dropped := if 0 < hint < all then all - hint else 0;
    var at := Engine.SamplePositions(all - dropped, Engine.MAX_FRAMES);
    seq(|at|, i requires 0 <= i < |at| => dropped + at[i])
  }

  /** The model gets four frames, or all it was given if fewer, in the order of the selection, and if any
      were selected the newest of them comes last. */
  lemma ModelInputSound(frames: seq<Entry>, q: Query)
    ensures var all, out, at := Selected(frames, q), ModelInput(frames, q),
                InputPositions(|Selected(frames, q)|, q.hint);
            && (var given := if 0 < q.hint < |all| then q.hint else |all|;
                |out| == if given <= 4 then given else 4)
            && Engine.Subsequence(out, all, at)
            && (all != [] ==> out != [] && at[|at| - 1] == |all| - 1)
  {
    var snap := Snapshot(frames, q);
    Engine.SampleKeepsOrder(snap, Engine.MAX_FRAMES);
  }

  /** In timestamp order, a selection holds exactly the buffered frames of the window, still in order. */
  lemma SelectionSound(frames: seq<Entry>, q: Query)
    requires Increasing(frames) && q.trigger > 0
    ensures Increasing(Selected(frames, q))
    ensures forall e :: e in Selected(frames, q) <==> e in frames && Within(e, q.Lo(), q.Hi())
  {
    WindowKeepsOrder(frames, q.Lo(), q.Hi());
  }

  // ---- the session object -----------------------------------------------------------

  /** One wake-up of a waiting query: the frames that arrived, the clock, and whether it timed out. */
  datatype Wakeup = Wakeup(frames: seq<Entry>, elapsed: nat, timedOut: bool)

  /** The history `log` extended by the frames of the first `k` wake-ups. */
  function Delivered(log: seq<Entry>, wakeups: seq<Wakeup>, k: nat): seq<Entry>
    requires k <= |wakeups|
  {
    if k == 0 then log else Delivered(log, wakeups, k - 1) + wakeups[k - 1].frames
  }

  function Elapsed(wakeups: seq<Wakeup>, k: nat): nat
    requires k <= |wakeups|
  {
    if k == 0 then 0 else Elapsed(wakeups, k - 1) + wakeups[k - 1].elapsed
  }

  lemma KeptAppend(log: seq<Entry>, e: Entry)
    ensures var frames := Kept(log) + [e];
            Kept(log + [e]) == if |frames| > MAX_BUFFERED_FRAMES then frames[1..] else frames
  {
  }

  /** The query's check after the first `k` wake-ups, as the transition system makes it. */
  ghost function CheckAfter(log: seq<Entry>, wakeups: seq<Wakeup>, k: nat, q: Query, start: nat): Waiter
    requires k <= |wakeups|
  {
    Check(false, State(start + Elapsed(wakeups, k), Delivered(log, wakeups, k), true, map[]), 0, q, start).waiters[0]
  }

  /** The check suspends the query. */
  ghost predicate StillWaiting(log: seq<Entry>, wakeups: seq<Wakeup>, k: nat, q: Query, start: nat)
    requires k <= |wakeups|
  {
    CheckAfter(log, wakeups, k, q, start) == Suspended(q, start, false)
  }

  lemma KeptNewest(log: seq<Entry>)
    ensures Kept(log) == [] <==> log == []
    ensures log != [] ==> Kept(log)[|Kept(log)| - 1] == log[|log| - 1]
  {
  }

  lemma CheckDecides(log: seq<Entry>, wakeups: seq<Wakeup>, k: nat, q: Query, start: nat)
    requires k <= |wakeups|
    ensures var seen := Delivered(log, wakeups, k);
            CheckAfter(log, wakeups, k, q, start) ==
              if NewestReaches(Kept(seen), q.Hi()) then Done(q, start, ByFrame, |seen|, Snapshot(Kept(seen), q))
              else if start + q.Patience() <= start + Elapsed(wakeups, k)
              then Done(q, start, ByDeadline, |seen|, Snapshot(Kept(seen), q))
              else Suspended(q, start, false)
  {
    hide Delivered, Snapshot, Kept, NewestReaches;
  }

  class Session {
    var frames: seq<Entry>
    var lastFrameSeq: Option<nat>
    var frameEvent: bool
    ghost var accepted: seq<Entry>

    ghost predicate Valid()
      reads this
    {
      frames == Kept(accepted)
    }

    constructor ()
      ensures Valid() && accepted == [] && lastFrameSeq == None && !frameEvent
    {
      frames, accepted, lastFrameSeq, frameEvent := [], [], None, false;
    }

    method Append(e: Entry)
      requires Valid()
      modifies this`frames, this`accepted
      ensures Valid() && accepted == old(accepted) + [e]
    {
      KeptAppend(accepted, e);
      frames := frames + [e];
      if |frames| > MAX_BUFFERED_FRAMES {
        frames := frames[1..];
      }
      accepted := accepted + [e];
    }

    method AppendAll(es: seq<Entry>)
      requires Valid()
      modifies this`frames, this`accepted, this`frameEvent
      ensures Valid() && accepted == old(accepted) + es
      ensures frameEvent == (old(frameEvent) || es != [])
    {
      for k := 0 to |es|
        invariant Valid() && accepted == old(accepted) + es[..k]
        invariant frameEvent == (old(frameEvent) || k > 0)
      {
        Append(es[k]);
        frameEvent := true;
      }
    }

    /** A packet that parses and decodes is appended and announced; any other leaves the session as it was. */
    method OnFramePacket(payload: seq<byte>, decode: seq<byte> -> Decoded)
      requires Valid()
      modifies this
      ensures Valid()
      ensures match Parse(payload)
              case Rejected => frames == old(frames) && accepted == old(accepted)
                               && lastFrameSeq == old(lastFrameSeq) && frameEvent == old(frameEvent)
              case Packet(seq32, ts, body) =>
                match decode(body)
                case Undecodable => frames == old(frames) && accepted == old(accepted)
                                    && lastFrameSeq == old(lastFrameSeq) && frameEvent == old(frameEvent)
                case Image(id) => accepted == old(accepted) + [Entry(ts, id)]
                                     && lastFrameSeq == Some(seq32) && frameEvent
    {
      if |payload| < HEADER_SIZE {
        return;
      }
      var seq32 := FromLittleEndian(payload[..4]);
      var ts := FromLittleEndian(payload[4..12]);
      var size := FromLittleEndian(payload[12..16]);
      var rest := payload[HEADER_SIZE..];
      var body := if size <= |rest| then rest[..size] else rest;
      if |body| != size {
        return;
      }
      match decode(body) {
        case Undecodable =>
        case Image(id) =>
          Append(Entry(ts, id));
          lastFrameSeq, frameEvent := Some(seq32), true;
      }
    }

    /** The wait loop, over a finite script of wake-ups, of which it consumes `used`. After each of them it
        makes the transition system's check: as long as that suspends, it waits again; it stops at the first
        that ends the wait, and for the same reason, or at a wait that timed out. `None` means it is still
        waiting, with the event cleared. */
    method AwaitPostWindow(q: Query, start: nat, wakeups: seq<Wakeup>)
      returns (why: Option<Why>, now: nat, used: nat)
      requires Valid() && q.trigger > 0
      modifies this`frames, this`accepted, this`frameEvent
      ensures Valid() && used <= |wakeups|
      ensures accepted == Delivered(old(accepted), wakeups, used) && now == start + Elapsed(wakeups, used)
      ensures forall k | 0 <= k < used :: StillWaiting(old(accepted), wakeups, k, q, start)
      ensures forall k | 0 <= k < used ::
                !WaitedFor(Delivered(old(accepted), wakeups, k), q) && !Overdue(Elapsed(wakeups, k), q)
      ensures why == None ==> !WaitedFor(frames, q) && !Overdue(now - start, q)
      ensures why == Some(ByFrame) ==> WaitedFor(frames, q)
      ensures why == Some(ByDeadline) ==> !WaitedFor(frames, q) && Overdue(now - start, q)
      ensures match why
              case None => used == |wakeups| && !frameEvent && StillWaiting(old(accepted), wakeups, used, q, start)
              case Some(w) =>
                || CheckAfter(old(accepted), wakeups, used, q, start)
                   == Done(q, start, w, |accepted|, Snapshot(frames, q))
                || (w == ByTimeout && used > 0 && wakeups[used - 1].timedOut)
    {
      hide CheckAfter, Snapshot, Kept;
      now, used := start, 0;
      ghost var log := accepted;
      var targetTs, deadline := q.Hi(), start + q.Patience();
      while true
        invariant used <= |wakeups| && Valid()
        invariant accepted == Delivered(log, wakeups, used) && now == start + Elapsed(wakeups, used)
        invariant forall k | 0 <= k < used :: StillWaiting(log, wakeups, k, q, start)
        invariant forall k | 0 <= k < used ::
                    !WaitedFor(Delivered(log, wakeups, k), q) && !Overdue(Elapsed(wakeups, k), q)
        decreases |wakeups| - used
      {
        CheckDecides(log, wakeups, used, q, start);
        if frames != [] && frames[|frames| - 1].ts >= targetTs {
          return Some(ByFrame), now, used;
        }
        frameEvent := false;
        if deadline <= now {
          return Some(ByDeadline), now, used;
        }
        assert StillWaiting(log, wakeups, used, q, start);
        assert !WaitedFor(Delivered(log, wakeups, used), q) by {
          KeptNewest(accepted);
        }
        if used == |wakeups| {
          return None, now, used;
        }
        hide StillWaiting;
        var w := wakeups[used];
        AppendAll(w.frames);
        now, used := now + w.elapsed, used + 1;
        if w.timedOut {
          return Some(ByTimeout), now, used;
        }
      }
    }

    /** What a query whose wait is over hands to the engine. */
    method TakeSnapshot(q: Query) returns (snapshot: seq<Entry>)
      ensures snapshot == Snapshot(frames, q)
      ensures q.trigger > 0 && q.hint == 0 ==>
                forall e :: e in snapshot <==> e in frames && AskedFor(e.ts, q)
      ensures EndOf(snapshot, if q.trigger > 0 then Window(frames, q.Lo(), q.Hi()) else frames, q.hint)
    {
      if q.trigger > 0 {
        snapshot := [];
        for i := 0 to |frames|
          invariant snapshot == Window(frames[..i], q.Lo(), q.Hi())
        {
          assert frames[..i + 1][..i] == frames[..i];
          if q.Lo() <= frames[i].ts <= q.Hi() {
            snapshot := snapshot + [frames[i]];
          }
        }
        assert frames[..|frames|] == frames;
        WindowHolds(frames, q);
      } else {
        snapshot := frames;
      }
      SuffixEnds(snapshot, q.hint);
      hide EndOf;
      if q.hint > 0 && q.hint < |snapshot| {
        snapshot := snapshot[|snapshot| - q.hint..];
      }
    }
  }
}
