/** The adaptive frame filter: rate, similarity and sharpness gates over two pieces of stored
    history, and the definition of every decision over the whole call history.
    Time is one positive clock in nanoseconds; images are the downscaled grey ones. */
module AdaptiveFilter {
  import opened Arithmetic

  const SECOND: nat := 1_000_000_000

  type Pixel = x: int | 0 <= x < 256
  type Gray = seq<Pixel>

  /** `pixels` is the square of the configured work size. */
  datatype Config = Config(maxFps: real, minDiffRatio: real, diffThreshold: int, sharpnessFloor: real, pixels: nat)

  datatype Decision = Accept | DropSimilar | DropRate | DropBlurry

  datatype Prior = NoPrior | Prior(gray: Gray)

  /** `lastEmit == 0` is the unset time point. */
  datatype State = State(prior: Prior, lastEmit: nat)

  datatype Event =
    | Evaluated(now: nat, gray: Gray, sharpness: real)
    | Forced(now: nat, gray: Gray)
    | Cleared(now: nat)

  predicate Proper(cfg: Config, e: Event) {
    e.now > 0 && (!e.Cleared? ==> |e.gray| == cfg.pixels > 0)
  }

  ghost predicate ProperLog(cfg: Config, log: seq<Event>) {
    forall i | 0 <= i < |log| :: Proper(cfg, log[i])
  }

  function MinInterval(cfg: Config): int
    requires cfg.maxFps > 0.0
  {
    (SECOND as real / cfg.maxFps).Floor
  }

  function Distance(p: Pixel, q: Pixel): nat {
    if p < q then q - p else p - q
  }

  function ChangedPixels(a: Gray, b: Gray, threshold: int): (n: nat)
    requires |a| == |b|
    ensures n <= |a|
  {
    if a == [] then 0
    else ChangedPixels(a[..|a| - 1], b[..|b| - 1], threshold)
         + (if Distance(a[|a| - 1], b[|b| - 1]) > threshold then 1 else 0)
  }

  /** The pixels that moved by more than the threshold. */
  ghost function Moved(a: Gray, b: Gray, threshold: int): set<int>
    requires |a| == |b|
  {
    set i | 0 <= i < |a| && (a[i] - b[i] > threshold || b[i] - a[i] > threshold)
  }

  lemma {:induction false} ChangedAreMoved(a: Gray, b: Gray, threshold: int)
    requires |a| == |b|
    ensures ChangedPixels(a, b, threshold) == |Moved(a, b, threshold)|
  {
    if a != [] {
      var n := |a| - 1;
      ChangedAreMoved(a[..n], b[..n], threshold);
      var rest := Moved(a[..n], b[..n], threshold);
      assert n !in rest;
      assert Moved(a, b, threshold) == rest + (if n in Moved(a, b, threshold) then {n} else {});
    }
  }

  /** The share of moved pixels; all of them where there is nothing to compare with. */
  ghost function Share(cfg: Config, prior: Prior, gray: Gray): real
    requires |gray| == cfg.pixels > 0 && (prior.Prior? ==> |prior.gray| == cfg.pixels)
  {
    if prior.NoPrior? then 1.0 else |Moved(prior.gray, gray, cfg.diffThreshold)| as real / cfg.pixels as real
  }

  function Ratio(cfg: Config, prior: Prior, gray: Gray): real
    requires |gray| == cfg.pixels > 0 && (prior.Prior? ==> |prior.gray| == cfg.pixels)
  {
    if prior.NoPrior? then 1.0
    else ChangedPixels(prior.gray, gray, cfg.diffThreshold) as real / cfg.pixels as real
  }

  predicate RateLimited(cfg: Config, lastEmit: nat, now: nat) {
    cfg.maxFps > 0.0 && lastEmit != 0 && now - lastEmit < MinInterval(cfg)
  }

  predicate Fits(cfg: Config, st: State) {
    st.prior.Prior? ==> |st.prior.gray| == cfg.pixels
  }

  function Decide(cfg: Config, st: State, e: Event): Decision
    requires e.Evaluated? && Proper(cfg, e) && Fits(cfg, st)
  {
    if RateLimited(cfg, st.lastEmit, e.now) then DropRate
    else if Ratio(cfg, st.prior, e.gray) < cfg.minDiffRatio then DropSimilar
    else if e.sharpness < cfg.sharpnessFloor then DropBlurry
    else Accept
  }

  function Step(cfg: Config, st: State, e: Event): (r: State)
    requires Proper(cfg, e) && Fits(cfg, st)
    ensures Fits(cfg, r)
  {
    match e
    case Cleared(_) => State(NoPrior, 0)
    case Forced(now, gray) => State(Prior(gray), now)
    case Evaluated(now, gray, _) =>
      var d := Decide(cfg, st, e);
      State(if d == DropRate then st.prior else Prior(gray), if d == Accept then now else st.lastEmit)
  }

  function After(cfg: Config, log: seq<Event>): (st: State)
    requires ProperLog(cfg, log)
    ensures Fits(cfg, st)
  {
    if log == [] then State(NoPrior, 0)
    else Step(cfg, After(cfg, log[..|log| - 1]), log[|log| - 1])
  }

  lemma AfterAppend(cfg: Config, log: seq<Event>, e: Event)
    requires ProperLog(cfg, log) && Proper(cfg, e)
    ensures ProperLog(cfg, log + [e]) && After(cfg, log + [e]) == Step(cfg, After(cfg, log), e)
  {
    assert (log + [e])[..|log|] == log;
  }

  /** The filter object, with a ghost log of the calls it served. */
  class AdaptiveFrameFilter {
    const cfg: Config
    var prevGray: Prior
    var lastEmit: nat
    ghost var log: seq<Event>

    ghost predicate Valid()
      reads this
    {
      && cfg.pixels > 0
      && ProperLog(cfg, log)
      && State(prevGray, lastEmit) == After(cfg, log)
    }

    constructor (cfg: Config)
      requires cfg.pixels > 0
      ensures Valid() && log == [] && this.cfg == cfg
    {
      this.cfg := cfg;
      prevGray, lastEmit, log := NoPrior, 0, [];
    }

    method Reset(now: nat)
      requires Valid() && now > 0
      modifies this
      ensures Valid() && log == old(log) + [Cleared(now)] && prevGray == NoPrior && lastEmit == 0
    {
      AfterAppend(cfg, log, Cleared(now));
      prevGray, lastEmit := NoPrior, 0;
      log := log + [Cleared(now)];
    }

    /** Counts the pixels that moved by more than the threshold, and makes the image the new baseline. */
    method DiffRatio(small: Gray) returns (ratio: real)
      requires |small| == cfg.pixels > 0 && (prevGray.Prior? ==> |prevGray.gray| == cfg.pixels)
      modifies this`prevGray
      ensures ratio == Ratio(cfg, old(prevGray), small) == Share(cfg, old(prevGray), small)
      ensures prevGray == Prior(small)
    {
      if prevGray.NoPrior? {
        prevGray := Prior(small);
        return 1.0;
      }
      var prev := prevGray.gray;
      var nonZero: nat := 0;
      for i := 0 to |small|
        invariant nonZero == ChangedPixels(prev[..i], small[..i], cfg.diffThreshold)
      {
        assert prev[..i + 1][..i] == prev[..i] && small[..i + 1][..i] == small[..i];
        var diff := if prev[i] < small[i] then small[i] - prev[i] else prev[i] - small[i];
        if diff > cfg.diffThreshold {
          nonZero := nonZero + 1;
        }
      }
      assert prev[..|small|] == prev && small[..|small|] == small;
      ChangedAreMoved(prev, small, cfg.diffThreshold);
      ratio := nonZero as real / |small| as real;
      prevGray := Prior(small);
    }

    /** The rate gate compares the time since the last emission with the frame rate; a frame past it becomes
        the baseline, whatever is then decided. By `DecisionIsHistorical` below, the decision is the one the
        whole log prescribes. */
    method Evaluate(now: nat, small: Gray, sharpness: real) returns (d: Decision)
      requires Valid() && now > 0 && |small| == cfg.pixels
      modifies this
      ensures Valid() && log == old(log) + [Evaluated(now, small, sharpness)]
      ensures d == Decide(cfg, After(cfg, old(log)), Evaluated(now, small, sharpness))
      ensures d == DropRate <==>
                && cfg.maxFps > 0.0 && old(lastEmit) != 0
                && (now - old(lastEmit) + 1) as real * cfg.maxFps <= 1_000_000_000.0
      ensures old(prevGray).Prior? ==> |old(prevGray).gray| == cfg.pixels
      ensures d != DropRate ==>
                var share := Share(cfg, old(prevGray), small);
                && (d == DropSimilar <==> share < cfg.minDiffRatio)
                && (d == DropBlurry <==> share >= cfg.minDiffRatio && sharpness < cfg.sharpnessFloor)
      ensures lastEmit == if d == Accept then now else old(lastEmit)
      ensures prevGray == if d == DropRate then old(prevGray) else Prior(small)
    {
      AfterAppend(cfg, log, Evaluated(now, small, sharpness));
      log := log + [Evaluated(now, small, sharpness)];
      if cfg.maxFps > 0.0 && lastEmit != 0 {
        var minInterval := (SECOND as real / cfg.maxFps).Floor;
        FloorRate(SECOND, cfg.maxFps, now - lastEmit);
        if now - lastEmit < minInterval {
          return DropRate;
        }
      }
      var ratio := DiffRatio(small);
      if ratio < cfg.minDiffRatio {
        return DropSimilar;
      }
      if sharpness < cfg.sharpnessFloor {
        return DropBlurry;
      }
      lastEmit := now;
      d := Accept;
    }

    method EvaluateForced(now: nat, small: Gray) returns (d: Decision)
      requires Valid() && now > 0 && |small| == cfg.pixels
      modifies this
      ensures Valid() && log == old(log) + [Forced(now, small)] && d == Accept
      ensures lastEmit == now && prevGray == Prior(small)
    {
      AfterAppend(cfg, log, Forced(now, small));
      log := log + [Forced(now, small)];
      var ratio := DiffRatio(small);
      lastEmit := now;
      d := Accept;
    }
  }

  // ---- the history-only definition --------------------------------------------------

  /** Call `i` let its frame through. */
  ghost predicate Emits(cfg: Config, log: seq<Event>, i: nat)
    requires ProperLog(cfg, log) && i < |log|
    decreases i, 3
  {
    log[i].Forced? || (log[i].Evaluated? && DecisionAt(cfg, log, i) == Accept)
  }

  /** Call `i` made its frame the comparison baseline: it was forced or passed the rate gate. */
  ghost predicate Rebases(cfg: Config, log: seq<Event>, i: nat)
    requires ProperLog(cfg, log) && i < |log|
    decreases i, 1
  {
    log[i].Forced? || (log[i].Evaluated? && RateAllows(cfg, log, i))
  }

  /** Before call `n`, call `j` is the last one since a reset that let its frame through. */
  ghost predicate LastEmission(cfg: Config, log: seq<Event>, n: nat, j: nat)
    requires ProperLog(cfg, log) && j < n <= |log|
    decreases n - 1, 4
  {
    && !log[j].Cleared?
    && Emits(cfg, log, j)
    && forall k | j < k < n :: !log[k].Cleared? && !Emits(cfg, log, k)
  }

  /** Before call `n`, call `j` is the last one since a reset that set the comparison baseline. */
  ghost predicate LastRebase(cfg: Config, log: seq<Event>, n: nat, j: nat)
    requires ProperLog(cfg, log) && j < n <= |log|
    decreases n - 1, 4
  {
    && !log[j].Cleared?
    && Rebases(cfg, log, j)
    && forall k | j < k < n :: !log[k].Cleared? && !Rebases(cfg, log, k)
  }

  /** The minimum interval has passed since the last emission, if there is one. */
  ghost predicate RateAllows(cfg: Config, log: seq<Event>, i: nat)
    requires ProperLog(cfg, log) && i < |log|
    decreases i, 0
  {
    cfg.maxFps > 0.0 ==>
      forall j | 0 <= j < i && LastEmission(cfg, log, i, j) :: log[i].now - log[j].now >= MinInterval(cfg)
  }

  ghost predicate TooSimilar(cfg: Config, log: seq<Event>, i: nat)
    requires ProperLog(cfg, log) && i < |log| && log[i].Evaluated?
    decreases i, 1
  {
    if exists j | 0 <= j < i :: LastRebase(cfg, log, i, j)
    then exists j | 0 <= j < i :: LastRebase(cfg, log, i, j)
                                  && Ratio(cfg, Prior(log[j].gray), log[i].gray) < cfg.minDiffRatio
    else 1.0 < cfg.minDiffRatio
  }

  ghost function DecisionAt(cfg: Config, log: seq<Event>, i: nat): Decision
    requires ProperLog(cfg, log) && i < |log| && log[i].Evaluated?
    decreases i, 2
  {
    if !RateAllows(cfg, log, i) then DropRate
    else if TooSimilar(cfg, log, i) then DropSimilar
    else if log[i].sharpness < cfg.sharpnessFloor then DropBlurry
    else Accept
  }

  lemma EmissionUnique(cfg: Config, log: seq<Event>, n: nat, i: nat, j: nat)
    requires ProperLog(cfg, log) && i < n <= |log| && j < n
    requires LastEmission(cfg, log, n, i) && LastEmission(cfg, log, n, j)
    ensures i == j
  {
  }

  lemma RebaseUnique(cfg: Config, log: seq<Event>, n: nat, i: nat, j: nat)
    requires ProperLog(cfg, log) && i < n <= |log| && j < n
    requires LastRebase(cfg, log, n, i) && LastRebase(cfg, log, n, j)
    ensures i == j
  {
  }

  ghost predicate LastEmitIsHistorical(cfg: Config, log: seq<Event>, n: nat)
    requires ProperLog(cfg, log) && n <= |log|
  {
    var t := After(cfg, log[..n]).lastEmit;
    if t == 0 then forall j | 0 <= j < n :: !LastEmission(cfg, log, n, j)
    else exists j | 0 <= j < n :: LastEmission(cfg, log, n, j) && log[j].now == t
  }

  ghost predicate PriorIsHistorical(cfg: Config, log: seq<Event>, n: nat)
    requires ProperLog(cfg, log) && n <= |log|
  {
    match After(cfg, log[..n]).prior
    case NoPrior => forall j | 0 <= j < n :: !LastRebase(cfg, log, n, j)
    case Prior(g) => exists j | 0 <= j < n :: LastRebase(cfg, log, n, j) && log[j].gray == g
  }

  lemma RateFromState(cfg: Config, log: seq<Event>, n: nat)
    requires ProperLog(cfg, log) && n < |log| && LastEmitIsHistorical(cfg, log, n)
    ensures RateLimited(cfg, After(cfg, log[..n]).lastEmit, log[n].now) <==> !RateAllows(cfg, log, n)
  {
    var t := After(cfg, log[..n]).lastEmit;
    if t != 0 {
      var j :| 0 <= j < n && LastEmission(cfg, log, n, j) && log[j].now == t;
      forall i | 0 <= i < n && LastEmission(cfg, log, n, i) ensures i == j {
        EmissionUnique(cfg, log, n, i, j);
      }
    }
  }

  lemma SimilarFromState(cfg: Config, log: seq<Event>, n: nat)
    requires ProperLog(cfg, log) && n < |log| && log[n].Evaluated? && PriorIsHistorical(cfg, log, n)
    ensures Ratio(cfg, After(cfg, log[..n]).prior, log[n].gray) < cfg.minDiffRatio <==> TooSimilar(cfg, log, n)
  {
    var p := After(cfg, log[..n]).prior;
    if p.Prior? {
      var j :| 0 <= j < n && LastRebase(cfg, log, n, j) && log[j].gray == p.gray;
      forall i | 0 <= i < n && LastRebase(cfg, log, n, i) ensures i == j {
        RebaseUnique(cfg, log, n, i, j);
      }
    }
  }

  lemma DecisionFromState(cfg: Config, log: seq<Event>, n: nat)
    requires ProperLog(cfg, log) && n < |log| && log[n].Evaluated?
    requires LastEmitIsHistorical(cfg, log, n) && PriorIsHistorical(cfg, log, n)
    ensures Decide(cfg, After(cfg, log[..n]), log[n]) == DecisionAt(cfg, log, n)
  {
    RateFromState(cfg, log, n);
    SimilarFromState(cfg, log, n);
  }

  lemma EmissionStep(cfg: Config, log: seq<Event>, n: nat, j: nat)
    requires ProperLog(cfg, log) && j <= n < |log|
    ensures LastEmission(cfg, log, n + 1, j) <==>
            !log[n].Cleared? && if j == n then Emits(cfg, log, n)
               else LastEmission(cfg, log, n, j) && !Emits(cfg, log, n)
  {
  }

  lemma RebaseStep(cfg: Config, log: seq<Event>, n: nat, j: nat)
    requires ProperLog(cfg, log) && j <= n < |log|
    ensures LastRebase(cfg, log, n + 1, j) <==>
            !log[n].Cleared? && if j == n then Rebases(cfg, log, n)
               else LastRebase(cfg, log, n, j) && !Rebases(cfg, log, n)
  {
  }

  lemma EmissionCarries(cfg: Config, log: seq<Event>, n: nat)
    requires ProperLog(cfg, log) && n < |log| && LastEmitIsHistorical(cfg, log, n)
    requires !log[n].Cleared? && !Emits(cfg, log, n)
    requires After(cfg, log[..n + 1]).lastEmit == After(cfg, log[..n]).lastEmit
    ensures LastEmitIsHistorical(cfg, log, n + 1)
  {
    var t := After(cfg, log[..n]).lastEmit;
    if t == 0 {
      var next := n + 1;
      forall j | 0 <= j < next ensures !LastEmission(cfg, log, next, j) {
        EmissionStep(cfg, log, n, j);
      }
    } else {
      var j :| 0 <= j < n && LastEmission(cfg, log, n, j) && log[j].now == t;
      EmissionStep(cfg, log, n, j);
    }
  }

  lemma EmissionTime(cfg: Config, log: seq<Event>, n: nat)
    requires ProperLog(cfg, log) && n < |log|
    requires LastEmitIsHistorical(cfg, log, n) && PriorIsHistorical(cfg, log, n)
    ensures After(cfg, log[..n + 1]).lastEmit ==
            if log[n].Cleared? then 0
            else if Emits(cfg, log, n) then log[n].now
            else After(cfg, log[..n]).lastEmit
  {
    assert log[..n + 1][..n] == log[..n];
    if log[n].Evaluated? {
      DecisionFromState(cfg, log, n);
    }
  }

  lemma LastEmitStep(cfg: Config, log: seq<Event>, n: nat)
    requires ProperLog(cfg, log) && n < |log|
    requires LastEmitIsHistorical(cfg, log, n) && PriorIsHistorical(cfg, log, n)
    ensures LastEmitIsHistorical(cfg, log, n + 1)
  {
    EmissionTime(cfg, log, n);
    if log[n].Cleared? {
      var next := n + 1;
      forall j | 0 <= j < next ensures !LastEmission(cfg, log, next, j) {
        EmissionStep(cfg, log, n, j);
      }
    } else if Emits(cfg, log, n) {
      EmissionStep(cfg, log, n, n);
    } else {
      EmissionCarries(cfg, log, n);
    }
  }

  lemma RebaseCarries(cfg: Config, log: seq<Event>, n: nat)
    requires ProperLog(cfg, log) && n < |log| && PriorIsHistorical(cfg, log, n)
    requires !log[n].Cleared? && !Rebases(cfg, log, n)
    requires After(cfg, log[..n + 1]).prior == After(cfg, log[..n]).prior
    ensures PriorIsHistorical(cfg, log, n + 1)
  {
    var p := After(cfg, log[..n]).prior;
    if p.NoPrior? {
      var next := n + 1;
      forall j | 0 <= j < next ensures !LastRebase(cfg, log, next, j) {
        RebaseStep(cfg, log, n, j);
      }
    } else {
      var j :| 0 <= j < n && LastRebase(cfg, log, n, j) && log[j].gray == p.gray;
      RebaseStep(cfg, log, n, j);
    }
  }

  lemma RebasedPrior(cfg: Config, log: seq<Event>, n: nat)
    requires ProperLog(cfg, log) && n < |log| && LastEmitIsHistorical(cfg, log, n)
    ensures After(cfg, log[..n + 1]).prior ==
            if log[n].Cleared? then NoPrior
            else if Rebases(cfg, log, n) then Prior(log[n].gray)
            else After(cfg, log[..n]).prior
  {
    assert log[..n + 1][..n] == log[..n];
    RateFromState(cfg, log, n);
  }

  lemma PriorStep(cfg: Config, log: seq<Event>, n: nat)
    requires ProperLog(cfg, log) && n < |log|
    requires LastEmitIsHistorical(cfg, log, n) && PriorIsHistorical(cfg, log, n)
    ensures PriorIsHistorical(cfg, log, n + 1)
  {
    RebasedPrior(cfg, log, n);
    if log[n].Cleared? {
      var next := n + 1;
      forall j | 0 <= j < next ensures !LastRebase(cfg, log, next, j) {
        RebaseStep(cfg, log, n, j);
      }
    } else if Rebases(cfg, log, n) {
      RebaseStep(cfg, log, n, n);
    } else {
      RebaseCarries(cfg, log, n);
    }
  }

  /** The stored time is that of the last emission since a reset; the stored image is the last one
      since a reset that was forced or passed the rate gate, even if it was then dropped. */
  lemma {:induction false} StateIsHistorical(cfg: Config, log: seq<Event>, n: nat)
    requires ProperLog(cfg, log) && n <= |log|
    ensures LastEmitIsHistorical(cfg, log, n) && PriorIsHistorical(cfg, log, n)
  {
    if n > 0 {
      StateIsHistorical(cfg, log, n - 1);
      LastEmitStep(cfg, log, n - 1);
      PriorStep(cfg, log, n - 1);
    }
  }

  /** Every decision of the incremental filter is the one the whole trace prescribes. */
  lemma DecisionIsHistorical(cfg: Config, log: seq<Event>, n: nat)
    requires ProperLog(cfg, log) && n < |log| && log[n].Evaluated?
    ensures Decide(cfg, After(cfg, log[..n]), log[n]) == DecisionAt(cfg, log, n)
  {
    StateIsHistorical(cfg, log, n);
    DecisionFromState(cfg, log, n);
  }

  /** After an emission, an evaluation is dropped for its rate exactly when the time since then, and one
      more nanosecond, is no more than one frame's share of a second. */
  lemma RateDroppedExactly(cfg: Config, log: seq<Event>, i: nat, j: nat)
    requires ProperLog(cfg, log) && i < |log| && log[i].Evaluated? && j < i && LastEmission(cfg, log, i, j)
    ensures DecisionAt(cfg, log, i) == DropRate <==>
            cfg.maxFps > 0.0 && (log[i].now - log[j].now + 1) as real * cfg.maxFps <= 1_000_000_000.0
  {
    forall k | 0 <= k < i && LastEmission(cfg, log, i, k) ensures k == j {
      EmissionUnique(cfg, log, i, k, j);
    }
    if cfg.maxFps > 0.0 {
      assert RateAllows(cfg, log, i) <==> log[i].now - log[j].now >= MinInterval(cfg);
      FloorRate(SECOND, cfg.maxFps, log[i].now - log[j].now);
    }
    hide LastEmission, TooSimilar;
  }

  // ---- rate bound -------------------------------------------------------------------

  ghost predicate Ordered(log: seq<Event>) {
    forall i, j | 0 <= i < j < |log| :: log[i].now <= log[j].now
  }

  /** Accepted evaluations among calls `from .. to`. */
  ghost function Accepts(cfg: Config, log: seq<Event>, from: nat, to: nat): nat
    requires ProperLog(cfg, log) && from <= to <= |log|
  {
    if from == to then 0
    else Accepts(cfg, log, from, to - 1)
         + (if log[to - 1].Evaluated? && DecisionAt(cfg, log, to - 1) == Accept then 1 else 0)
  }

  ghost function Resets(log: seq<Event>, from: nat, to: nat): nat
    requires from <= to <= |log|
  {
    if from == to then 0 else Resets(log, from, to - 1) + (if log[to - 1].Cleared? then 1 else 0)
  }

  /** What the stored emission time says about the accepts since `from`, which is at time `start`. */
  ghost predicate Budget(accepts: nat, resets: nat, min: int, start: nat, lastEmit: nat, now: nat) {
    && lastEmit <= now
    && (lastEmit == 0 ==> (accepts - resets) * min <= now - start)
    && (lastEmit != 0 ==> (accepts - resets - 1) * min <= (if lastEmit < start then 0 else lastEmit - start))
    && (0 < lastEmit < start ==> accepts == 0)
  }

  lemma BudgetStep(cfg: Config, st: State, e: Event, accepts: nat, resets: nat, start: nat, now: nat)
    requires cfg.maxFps > 0.0 && Proper(cfg, e) && Fits(cfg, st) && start <= now <= e.now
    requires Budget(accepts, resets, MinInterval(cfg), start, st.lastEmit, now) && MinInterval(cfg) > 0
    ensures Budget(accepts + (if e.Evaluated? && Decide(cfg, st, e) == Accept then 1 else 0),
                   resets + (if e.Cleared? then 1 else 0), MinInterval(cfg), start, Step(cfg, st, e).lastEmit, e.now)
  {
    var min := MinInterval(cfg);
    if st.lastEmit != 0 {
      assert (accepts - resets) * min == (accepts - resets - 1) * min + min;
      assert (accepts - (resets + 1)) * min == (accepts - resets - 1) * min;
    } else {
      assert (accepts - resets - 1) * min == (accepts - resets) * min - min;
    }
    assert (accepts + 1 - resets - 1) * min == (accepts - resets) * min;
  }

  lemma {:induction false} BudgetHolds(cfg: Config, log: seq<Event>, from: nat, to: nat, start: nat)
    requires ProperLog(cfg, log) && Ordered(log) && from <= to <= |log|
    requires cfg.maxFps > 0.0 && MinInterval(cfg) > 0
    requires start > 0 && forall i | 0 <= i < |log| ::
               (i < from ==> log[i].now <= start) && (from <= i ==> start <= log[i].now)
    ensures Budget(Accepts(cfg, log, from, to), Resets(log, from, to), MinInterval(cfg), start,
                   After(cfg, log[..to]).lastEmit, if from < to then log[to - 1].now else start)
  {
    if from == to {
      LastEmitPast(cfg, log[..from], start);
    } else {
      BudgetHolds(cfg, log, from, to - 1, start);
      assert log[..to][..to - 1] == log[..to - 1];
      if log[to - 1].Evaluated? {
        DecisionIsHistorical(cfg, log, to - 1);
      }
      BudgetStep(cfg, After(cfg, log[..to - 1]), log[to - 1],
                 Accepts(cfg, log, from, to - 1), Resets(log, from, to - 1),
                 start, if from < to - 1 then log[to - 2].now else start);
    }
  }

  lemma {:induction false} LastEmitPast(cfg: Config, log: seq<Event>, t: nat)
    requires ProperLog(cfg, log) && forall i | 0 <= i < |log| :: log[i].now <= t
    ensures After(cfg, log).lastEmit <= t
  {
    if log != [] {
      LastEmitPast(cfg, log[..|log| - 1], t);
    }
  }

  lemma IntervalPositive(cfg: Config)
    requires 0.0 < cfg.maxFps <= SECOND as real
    ensures MinInterval(cfg) > 0
  {
    FloorRate(SECOND, cfg.maxFps, 0);
  }

  /** No more than `maxFps` a second, but for the nanosecond lost to rounding the interval down. */
  predicate WithinRate(count: int, maxFps: real, length: nat) {
    count as real * (1_000_000_000.0 - maxFps) <= length as real * maxFps
  }

  lemma IntervalsWithinRate(cfg: Config, count: int, length: nat)
    requires 0.0 < cfg.maxFps <= SECOND as real && count * MinInterval(cfg) <= length
    ensures WithinRate(count, cfg.maxFps, length)
  {
    RateOfIntervals(SECOND, cfg.maxFps, count, length);
  }

  /** In any interval of length `length` holding `R` resets, at most `length / min + R + 1` idle
      frames are accepted, whatever else happened before, between and after. In frames per second: `R + 1`,
      and then no more than `maxFps` a second. */
  lemma RateBound(cfg: Config, log: seq<Event>, from: nat, to: nat, start: nat, length: nat)
    requires ProperLog(cfg, log) && Ordered(log) && from <= to <= |log|
    requires 0.0 < cfg.maxFps <= SECOND as real && start > 0
    requires forall i | 0 <= i < |log| :: (i < from ==> log[i].now <= start) && (from <= i ==> start <= log[i].now)
    requires forall i | from <= i < to :: log[i].now <= start + length
    ensures MinInterval(cfg) > 0
    ensures Accepts(cfg, log, from, to) <= length / MinInterval(cfg) + Resets(log, from, to) + 1
    ensures WithinRate(Accepts(cfg, log, from, to) - Resets(log, from, to) - 1, cfg.maxFps, length)
  {
    IntervalPositive(cfg);
    BudgetHolds(cfg, log, from, to, start);
    var min, surplus := MinInterval(cfg), Accepts(cfg, log, from, to) - Resets(log, from, to) - 1;
    hide Accepts, Resets, MinInterval, WithinRate, ProperLog;
    if After(cfg, log[..to]).lastEmit == 0 {
      assert surplus * min == (surplus + 1) * min - min;
    }
    assert surplus * min <= length;
    QuotientBound(surplus, min, length);
    IntervalsWithinRate(cfg, surplus, length);
  }
}
