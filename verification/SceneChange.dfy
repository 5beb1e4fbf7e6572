/** The scene-change detector: a histogram gate and a hash gate against one stored baseline, and
    the history-only definition of when a frame is a change. */
module SceneChange {
  import opened Words

  /** What the detector derives from a frame. A histogram is an opaque label; the distance between
      two of them is a parameter of the configuration. */
  datatype Frame = Frame(hist: int, phash: nat)

  datatype Config = Config(histThreshold: real, phashThreshold: int, bhatt: (int, int) -> real)

  datatype Baseline = NoBaseline | Baseline(frame: Frame)

  datatype Event = Checked(frame: Frame) | Cleared

  predicate Differs(cfg: Config, base: Frame, f: Frame) {
    cfg.bhatt(base.hist, f.hist) > cfg.histThreshold || Hamming(base.phash, f.phash) >= cfg.phashThreshold
  }

  predicate Decide(cfg: Config, base: Baseline, f: Frame) {
    base.NoBaseline? || Differs(cfg, base.frame, f)
  }

  function Step(cfg: Config, base: Baseline, e: Event): Baseline {
    match e
    case Cleared => NoBaseline
    case Checked(f) => if Decide(cfg, base, f) then Baseline(f) else base
  }

  /** The stored baseline after a log of calls. */
  function After(cfg: Config, log: seq<Event>): Baseline {
    if log == [] then NoBaseline
    else Step(cfg, After(cfg, log[..|log| - 1]), log[|log| - 1])
  }

  /** The detector object: the fields of the original, and a ghost log of the calls it served. */
  class SceneChangeDetector {
    const cfg: Config
    var hasPrev: bool
    var prevHist: int
    var prevPhash: nat
    ghost var log: seq<Event>

    ghost function Stored(): Baseline
      reads this
    {
      if hasPrev then Baseline(Frame(prevHist, prevPhash)) else NoBaseline
    }

    ghost predicate Valid()
      reads this
    {
      Stored() == After(cfg, log)
    }

    constructor (cfg: Config)
      ensures Valid() && log == [] && this.cfg == cfg
    {
      this.cfg := cfg;
      hasPrev, prevHist, prevPhash, log := false, 0, 0, [];
    }

    method Reset()
      requires Valid()
      modifies this
      ensures Valid() && log == old(log) + [Cleared] && !hasPrev
    {
      hasPrev, prevHist, prevPhash := false, 0, 0;
      log := log + [Cleared];
    }

    /** A frame is a change without a baseline, beyond the histogram threshold, or at the hash threshold, and
        then it becomes the baseline. By `DecisionIsHistorical` below, the answer is the one the whole log
        prescribes. */
    method IsSceneChange(f: Frame) returns (changed: bool)
      requires Valid()
      modifies this
      ensures Valid() && log == old(log) + [Checked(f)]
      ensures changed == Decide(cfg, After(cfg, old(log)), f)
      ensures !changed <==>
                && old(hasPrev) && cfg.bhatt(old(prevHist), f.hist) <= cfg.histThreshold
                && Hamming(old(prevPhash), f.phash) < cfg.phashThreshold
      ensures hasPrev && prevHist == (if changed then f.hist else old(prevHist))
      ensures prevPhash == if changed then f.phash else old(prevPhash)
    {
      assert (log + [Checked(f)])[..|log|] == log;
      log := log + [Checked(f)];
      if !hasPrev {
        hasPrev, prevHist, prevPhash := true, f.hist, f.phash;
        return true;
      }
      var bhatt := cfg.bhatt(prevHist, f.hist);
      var hamming := Popcount(Xor(prevPhash, f.phash));
      changed := bhatt > cfg.histThreshold || hamming >= cfg.phashThreshold;
      if changed {
        prevHist, prevPhash := f.hist, f.phash;
      }
    }
  }

  // ---- the history-only definition --------------------------------------------------

  /** Event `i` is a frame that differs from the last frame since a reset that was itself a change. */
  ghost predicate IsChange(cfg: Config, log: seq<Event>, i: nat)
    requires i < |log|
    decreases i, 0
  {
    && log[i].Checked?
    && forall j | 0 <= j < i && IsBase(cfg, log, i, j) :: Differs(cfg, log[j].frame, log[i].frame)
  }

  /** Before event `n`, event `j` is the last change and there has been no reset since. */
  ghost predicate IsBase(cfg: Config, log: seq<Event>, n: nat, j: nat)
    requires j < n <= |log|
    decreases n - 1, 1
  {
    && log[j].Checked?
    && IsChange(cfg, log, j)
    && forall k | j < k < n :: log[k].Checked? && !IsChange(cfg, log, k)
  }

  lemma BaseUnique(cfg: Config, log: seq<Event>, n: nat, i: nat, j: nat)
    requires i < n <= |log| && j < n && IsBase(cfg, log, n, i) && IsBase(cfg, log, n, j)
    ensures i == j
  {
  }

  ghost predicate BaselineIsHistorical(cfg: Config, log: seq<Event>, n: nat)
    requires n <= |log|
  {
    match After(cfg, log[..n])
    case NoBaseline => forall j | 0 <= j < n :: !IsBase(cfg, log, n, j)
    case Baseline(f) => exists j | 0 <= j < n :: IsBase(cfg, log, n, j) && log[j].frame == f
  }

  lemma BaseStep(cfg: Config, log: seq<Event>, n: nat, j: nat)
    requires j < n < |log|
    ensures IsBase(cfg, log, n + 1, j) <==> IsBase(cfg, log, n, j) && log[n].Checked? && !IsChange(cfg, log, n)
  {
  }

  lemma BaseNow(cfg: Config, log: seq<Event>, n: nat)
    requires n < |log|
    ensures IsBase(cfg, log, n + 1, n) <==> IsChange(cfg, log, n)
  {
  }

  lemma DecisionFromBaseline(cfg: Config, log: seq<Event>, n: nat)
    requires n < |log| && log[n].Checked? && BaselineIsHistorical(cfg, log, n)
    ensures Decide(cfg, After(cfg, log[..n]), log[n].frame) == IsChange(cfg, log, n)
  {
    if After(cfg, log[..n]).Baseline? {
      var j :| 0 <= j < n && IsBase(cfg, log, n, j) && log[j].frame == After(cfg, log[..n]).frame;
      forall i | 0 <= i < n && IsBase(cfg, log, n, i) ensures i == j {
        BaseUnique(cfg, log, n, i, j);
      }
    }
  }

  /** The stored baseline is the last frame since a reset that was declared a change. */
  lemma {:induction false} StateIsHistorical(cfg: Config, log: seq<Event>, n: nat)
    requires n <= |log|
    ensures BaselineIsHistorical(cfg, log, n)
  {
    if n > 0 {
      StateIsHistorical(cfg, log, n - 1);
      assert log[..n][..n - 1] == log[..n - 1];
      BaseNow(cfg, log, n - 1);
      forall j | 0 <= j < n - 1
        ensures IsBase(cfg, log, n, j) <==>
                IsBase(cfg, log, n - 1, j) && log[n - 1].Checked? && !IsChange(cfg, log, n - 1)
      {
        BaseStep(cfg, log, n - 1, j);
      }
      if log[n - 1].Checked? {
        DecisionFromBaseline(cfg, log, n - 1);
        if IsChange(cfg, log, n - 1) {
          assert log[n - 1].frame == After(cfg, log[..n]).frame;
        } else if After(cfg, log[..n - 1]).Baseline? {
          var j :| 0 <= j < n - 1 && IsBase(cfg, log, n - 1, j) && log[j].frame == After(cfg, log[..n - 1]).frame;
          assert IsBase(cfg, log, n, j);
        }
      }
    }
  }

  /** Every decision of the incremental detector is the one the whole trace prescribes. */
  lemma DecisionIsHistorical(cfg: Config, log: seq<Event>, n: nat)
    requires n < |log| && log[n].Checked?
    ensures Decide(cfg, After(cfg, log[..n]), log[n].frame) == IsChange(cfg, log, n)
  {
    StateIsHistorical(cfg, log, n);
    DecisionFromBaseline(cfg, log, n);
  }

  /** Against its baseline, a frame is suppressed exactly when it is within the histogram threshold and
      short of the hash threshold. */
  lemma SuppressedExactly(cfg: Config, log: seq<Event>, base: nat, i: nat)
    requires base < i < |log| && IsBase(cfg, log, i, base) && log[i].Checked?
    ensures !IsChange(cfg, log, i) <==>
            && cfg.bhatt(log[base].frame.hist, log[i].frame.hist) <= cfg.histThreshold
            && Hamming(log[base].frame.phash, log[i].frame.phash) < cfg.phashThreshold
  {
    forall j | 0 <= j < i && IsBase(cfg, log, i, j) ensures j == base {
      BaseUnique(cfg, log, i, j, base);
    }
  }

  /** Without a baseline, every frame is a change. */
  lemma FirstIsChange(cfg: Config, log: seq<Event>, i: nat)
    requires i < |log| && log[i].Checked? && forall j | 0 <= j < i :: !IsBase(cfg, log, i, j)
    ensures IsChange(cfg, log, i)
  {
  }

  /** Frames suppressed against the same baseline stay within twice the hash radius of each other. */
  lemma SuppressionRadius(cfg: Config, log: seq<Event>, base: nat, i: nat, k: nat)
    requires base < i < |log| && base < k < |log|
    requires IsBase(cfg, log, i, base) && IsBase(cfg, log, k, base)
    requires log[i].Checked? && log[k].Checked? && !IsChange(cfg, log, i) && !IsChange(cfg, log, k)
    ensures Hamming(log[i].frame.phash, log[k].frame.phash) <= 2 * (cfg.phashThreshold - 1)
  {
    SuppressedNearBase(cfg, log, base, i);
    SuppressedNearBase(cfg, log, base, k);
    var b := log[base].frame.phash;
    HammingSymmetric(b, log[i].frame.phash);
    HammingTriangle(log[i].frame.phash, b, log[k].frame.phash);
  }

  lemma SuppressedNearBase(cfg: Config, log: seq<Event>, base: nat, i: nat)
    requires base < i < |log| && IsBase(cfg, log, i, base) && log[i].Checked? && !IsChange(cfg, log, i)
    ensures Hamming(log[base].frame.phash, log[i].frame.phash) <= cfg.phashThreshold - 1
    ensures cfg.bhatt(log[base].frame.hist, log[i].frame.hist) <= cfg.histThreshold
  {
    SuppressedExactly(cfg, log, base, i);
  }
}
