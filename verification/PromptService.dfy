/** The objects at both ends of the response protocol: the client's gRPC service with its session
    map and chunk buffers, the server's response sender, and the prompt app's receive loop. Each
    method is proved against the step functions of `ResponseStream`. */
module PromptService {
  import opened Options
  import opened ResponseStream
  import opened StreamProofs
  import Theorems = StreamTheorems
  import Engine = VlmEngine

  // ---- session ids ------------------------------------------------------------------

  function Digit(d: nat): char
    requires d < 10
  {
    ['0', '1', '2', '3', '4', '5', '6', '7', '8', '9'][d]
  }

  function Decimal(n: nat): (s: string)
    ensures s != ""
  {
    if n < 10 then [Digit(n)] else Decimal(n / 10) + [Digit(n % 10)]
  }

  lemma {:induction false} DecimalInjective(m: nat, n: nat)
    requires Decimal(m) == Decimal(n)
    ensures m == n
    decreases m + n
  {
    var a, b := Decimal(m), Decimal(n);
    assert a[|a| - 1] == Digit(m % 10) && b[|b| - 1] == Digit(n % 10);
    assert m % 10 == n % 10;
    if m >= 10 {
      assert a[..|a| - 1] == Decimal(m / 10);
      if n >= 10 {
        assert b[..|b| - 1] == Decimal(n / 10);
        DecimalInjective(m / 10, n / 10);
      }
    }
  }

  /** The number that a string of decimal digits denotes. */
  function Number(s: string): int {
    if s == "" then 0 else 10 * Number(s[..|s| - 1]) + (s[|s| - 1] as int - '0' as int)
  }

  /** Generated ids carry the counter in decimal, without leading zeros. */
  lemma {:induction false} DecimalReads(n: nat)
    ensures Number(Decimal(n)) == n
    ensures forall i | 0 <= i < |Decimal(n)| :: '0' <= Decimal(n)[i] <= '9'
    ensures n > 0 ==> Decimal(n)[0] != '0'
  {
    var s := Decimal(n);
    assert s[|s| - 1] as int - '0' as int == n % 10;
    if n < 10 {
      assert s[..|s| - 1] == "";
    } else {
      DecimalReads(n / 10);
      assert s[..|s| - 1] == Decimal(n / 10);
    }
  }

  function AutoId(counter: nat): string {
    "sess-" + Decimal(counter)
  }

  /** The id a call uses: the caller's own, or a generated one when that is empty. */
  function ResolveSid(requested: string, counter: nat): string {
    if requested == "" then AutoId(counter + 1) else requested
  }

  /** Two calls get the same id only if one of them asked for it by name: generated ids never meet. */
  lemma SameIdWasRequested(r1: string, c1: nat, r2: string, c2: nat)
    requires ResolveSid(r1, c1) == ResolveSid(r2, c2)
    ensures (r1 == "" && r2 == "" ==> c1 == c2)
    ensures r1 != "" && r2 == "" ==> r1 == AutoId(c2 + 1)
    ensures r1 != "" && r2 != "" ==> r1 == r2
  {
    if r1 == "" && r2 == "" {
      assert AutoId(c1 + 1)[5..] == Decimal(c1 + 1) && AutoId(c2 + 1)[5..] == Decimal(c2 + 1);
      DecimalInjective(c1 + 1, c2 + 1);
    }
  }

  // ---- one call's consumer loop -----------------------------------------------------

  /** What one pass of the loop meets: chunks dispatched before it takes the lock, whether the call
      is cancelled, and whether the writer takes the chunk. */
  datatype Round = Round(arrivals: seq<Message>, isCancelled: bool, writeOk: bool)

  function PushAll(H: Handler, ms: seq<Message>): Handler {
    if ms == [] then H else Pushed(PushAll(H, ms[..|ms| - 1]), ms[|ms| - 1])
  }

  function ServeRound(H: Handler, r: Round): Handler {
    var A := PushAll(H, r.arrivals);
    var P := if A.phase.Consuming? then Polled(A, r.isCancelled) else A;
    if P.phase.Writing? then Wrote(P, r.writeOk) else P
  }

  function Serve(H: Handler, rounds: seq<Round>): Handler {
    if rounds == [] then H else ServeRound(Serve(H, rounds[..|rounds| - 1]), rounds[|rounds| - 1])
  }

  lemma ServeNext(H: Handler, rounds: seq<Round>, used: nat)
    requires used < |rounds|
    ensures Serve(H, rounds[..used + 1]) == ServeRound(Serve(H, rounds[..used]), rounds[used])
  {
    assert rounds[..used + 1][..used] == rounds[..used];
  }

  lemma {:induction false} PushAllFits(h: nat, H: Handler, ms: seq<Message>)
    requires Conserved(H) && WrittenFits(h, H)
    ensures var K := PushAll(H, ms);
            Conserved(K) && WrittenFits(h, K) && K.phase == H.phase && K.dispatched == H.dispatched + ms
  {
    if ms != [] {
      var init, m := ms[..|ms| - 1], ms[|ms| - 1];
      PushAllFits(h, H, init);
      var A := PushAll(H, init);
      assert A.consumed + (A.buf.chunks + [m]) == A.dispatched + [m];
      assert H.dispatched + init + [m] == H.dispatched + ms;
      DonePushed(A.dispatched, m);
    }
  }

  /** Whatever arrives, is cancelled or fails: the loop loses nothing, writes in order, never exits on
      an empty finished buffer, and exits through `done` only after writing it. */
  lemma {:induction false} ServeFits(h: nat, H: Handler, rounds: seq<Round>)
    requires Conserved(H) && WrittenFits(h, H) && (H.phase.Consuming? || H.phase.Leaving?)
    ensures var K := Serve(H, rounds);
            Conserved(K) && WrittenFits(h, K) && (K.phase.Consuming? || K.phase.Leaving?)
  {
    if rounds != [] {
      ServeFits(h, H, rounds[..|rounds| - 1]);
      var K, r := Serve(H, rounds[..|rounds| - 1]), rounds[|rounds| - 1];
      PushAllFits(h, K, r.arrivals);
      var A := PushAll(K, r.arrivals);
      if A.phase.Consuming? {
        PolledFits(h, A, r.isCancelled);
        var P := Polled(A, r.isCancelled);
        if P.phase.Writing? {
          WroteFits(h, P, r.writeOk);
        }
      }
    }
  }

  /** Everything dispatched to the call over some passes. */
  function Arrivals(rounds: seq<Round>): seq<Message> {
    if rounds == [] then [] else Arrivals(rounds[..|rounds| - 1]) + rounds[|rounds| - 1].arrivals
  }

  lemma RoundDispatches(h: nat, H: Handler, r: Round)
    requires Conserved(H) && WrittenFits(h, H)
    ensures ServeRound(H, r).dispatched == H.dispatched + r.arrivals
    ensures ServeRound(H, r).phase == Leaving(NotReady) ==> H.phase == Leaving(NotReady)
  {
    PushAllFits(h, H, r.arrivals);
    hide PushAll, Conserved, WrittenFits;
  }

  lemma {:induction false} ServeArrivals(h: nat, H: Handler, rounds: seq<Round>)
    requires Conserved(H) && WrittenFits(h, H) && H.phase.Consuming?
    ensures Serve(H, rounds).dispatched == H.dispatched + Arrivals(rounds)
    ensures Serve(H, rounds).phase != Leaving(NotReady)
  {
    hide Conserved, WrittenFits, ServeRound;
    if rounds == [] {
      assert H.dispatched + [] == H.dispatched;
    } else {
      var init := rounds[..|rounds| - 1];
      ServeArrivals(h, H, init);
      ServeFits(h, H, init);
      RoundDispatches(h, Serve(H, init), rounds[|rounds| - 1]);
    }
  }

  /** Starting with nothing dispatched, what is written is the beginning of everything that arrived. */
  lemma WrittenArrived(h: nat, H: Handler, rounds: seq<Round>)
    requires Conserved(H) && WrittenFits(h, H) && H.phase.Consuming? && H.dispatched == []
    ensures var K := Serve(H, rounds);
            Conserved(K) && WrittenFits(h, K) && K.phase != Leaving(NotReady) && K.written <= Arrivals(rounds)
  {
    hide Serve;
    ServeFits(h, H, rounds);
    ServeArrivals(h, H, rounds);
    var K := Serve(H, rounds);
    assert [] + Arrivals(rounds) == Arrivals(rounds);
    assert K.written <= K.consumed <= K.dispatched;
  }

  /** A call that has just entered its loop. */
  predicate Started(H: Handler) {
    H.phase.Consuming? && H.buf == Buffer([], false, false) && H.written == H.dispatched == H.consumed == []
  }

  lemma StartedFits(h: nat, H: Handler)
    requires Started(H)
    ensures Conserved(H) && WrittenFits(h, H) && H.dispatched == []
  {
  }

  // ---- exactly what the loop writes -------------------------------------------------

  /** How many chunks are out after some passes that all go well: every pass takes one if one is queued. */
  function Served(rounds: seq<Round>): nat {
    if rounds == [] then 0
    else
      var more := Served(rounds[..|rounds| - 1]) + 1;
      if more <= |Arrivals(rounds)| then more else |Arrivals(rounds)|
  }

  predicate WithinPace(rounds: seq<Round>, count: nat, i: nat)
    requires i <= |rounds|
  {
    count <= |Arrivals(rounds[..i])| + |rounds| - i
  }

  /** As many as can be written one a pass and no sooner than they arrive: from some moment on every pass
      wrote one, and all that had arrived by then was out. */
  ghost predicate OneAPass(rounds: seq<Round>, count: nat) {
    && (forall i | 0 <= i <= |rounds| :: WithinPace(rounds, count, i))
    && (exists i | 0 <= i <= |rounds| :: count == |Arrivals(rounds[..i])| + |rounds| - i)
  }

  lemma {:induction false} ServedOneAPass(rounds: seq<Round>)
    ensures OneAPass(rounds, Served(rounds))
  {
    var n := |rounds|;
    assert rounds[..n] == rounds;
    if n > 0 {
      var init := rounds[..n - 1];
      ServedOneAPass(init);
      forall i | 0 <= i < n ensures WithinPace(rounds, Served(rounds), i) {
        assert init[..i] == rounds[..i] && WithinPace(init, Served(init), i);
      }
      var i :| 0 <= i <= |init| && Served(init) == |Arrivals(init[..i])| + |init| - i;
      assert init[..i] == rounds[..i];
    }
  }

  /** The pass was not cancelled, and if it had a chunk to write the writer took it. */
  predicate PassWell(rounds: seq<Round>, k: nat)
    requires k < |rounds|
  {
    !rounds[k].isCancelled && (Served(rounds[..k]) < |Arrivals(rounds[..k + 1])| ==> rounds[k].writeOk)
  }

  /** All that a loop over `rounds`, of which it makes `used`, writes, and why it leaves. */
  ghost predicate LoopExact(rounds: seq<Round>, used: nat, written: seq<Message>, exit: Option<Exit>) {
    && used <= |rounds| && written <= Arrivals(rounds[..used])
    && match exit
       case None =>
         && used == |rounds| && NoDone(written) && OneAPass(rounds[..used], |written|)
         && forall k | 0 <= k < used :: PassWell(rounds, k)
       case Some(e) =>
         && used > 0 && (forall k | 0 <= k < used - 1 :: PassWell(rounds, k))
         && match e
            case AfterDone =>
              && OneAPass(rounds[..used], |written|) && PassWell(rounds, used - 1)
              && written != [] && written[|written| - 1].done && NoDone(written[..|written| - 1])
            case Cancelled =>
              OneAPass(rounds[..used - 1], |written|) && NoDone(written) && rounds[used - 1].isCancelled
            case WriteFailed =>
              && OneAPass(rounds[..used - 1], |written|) && NoDone(written)
              && !rounds[used - 1].isCancelled && !rounds[used - 1].writeOk
              && |written| < |Arrivals(rounds[..used])|
            case _ => false
  }

  /** Every pass has an open call and a writer that takes what it is given. */
  predicate NothingFails(rounds: seq<Round>) {
    forall r | r in rounds :: !r.isCancelled && r.writeOk
  }

  /** A closing chunk arrives in time: at least as many passes follow as there are chunks up to it. */
  ghost predicate ClosesInTime(rounds: seq<Round>) {
    exists i, d | 0 <= i <= |rounds| && 0 <= d < |Arrivals(rounds[..i])| ::
      Arrivals(rounds[..i])[d].done && i + d < |rounds|
  }

  lemma {:induction false} ArrivalsGrow(rounds: seq<Round>, i: nat)
    requires i <= |rounds|
    ensures Arrivals(rounds[..i]) <= Arrivals(rounds)
  {
    if i == |rounds| {
      assert rounds[..i] == rounds;
    } else {
      assert rounds[..|rounds| - 1][..i] == rounds[..i];
      ArrivalsGrow(rounds[..|rounds| - 1], i);
    }
  }

  /** Then the call leaves through it. */
  lemma MustLeave(rounds: seq<Round>, used: nat, written: seq<Message>, exit: Option<Exit>)
    requires LoopExact(rounds, used, written, exit) && NothingFails(rounds) && ClosesInTime(rounds)
    ensures exit == Some(AfterDone)
  {
    if exit == None {
      var i, d :| 0 <= i <= |rounds| && 0 <= d < |Arrivals(rounds[..i])|
                  && Arrivals(rounds[..i])[d].done && i + d < |rounds|;
      assert rounds[..used] == rounds;
      var j :| 0 <= j <= |rounds| && |written| == |Arrivals(rounds[..j])| + |rounds| - j;
      ArrivalsGrow(rounds, i);
      if j >= i {
        assert rounds[..j][..i] == rounds[..i];
        ArrivalsGrow(rounds[..j], i);
      }
    }
  }

  /** What a pass finds: everything arrived and not yet written is queued, oldest first. */
  lemma PassFinds(h: nat, H: Handler, rounds: seq<Round>, r: Round)
    requires Started(H) && Serve(H, rounds).phase.Consuming?
    ensures var K, all := Serve(H, rounds), Arrivals(rounds) + r.arrivals;
            var A := PushAll(K, r.arrivals);
            && A.phase.Consuming? && NoDone(K.written) && Conserved(A) && WrittenFits(h, A) && A.written == K.written
            && K.written + A.buf.chunks == all
  {
    StartedFits(h, H);
    hide Serve, PushAll;
    ServeFits(h, H, rounds);
    ServeArrivals(h, H, rounds);
    PushAllFits(h, Serve(H, rounds), r.arrivals);
    assert [] + Arrivals(rounds) == Arrivals(rounds);
    PushAllKeeps(Serve(H, rounds), r.arrivals);
  }

  lemma {:induction false} PushAllKeeps(H: Handler, ms: seq<Message>)
    ensures PushAll(H, ms).written == H.written && PushAll(H, ms).phase == H.phase
  {
    if ms != [] {
      PushAllKeeps(H, ms[..|ms| - 1]);
    }
  }

  /** The loop so far, with no exit yet. */
  ghost predicate StillLooping(rounds: seq<Round>, used: nat, written: seq<Message>) {
    && used <= |rounds| && written <= Arrivals(rounds[..used]) && NoDone(written)
    && |written| == Served(rounds[..used])
    && forall k | 0 <= k < used :: PassWell(rounds, k)
  }

  lemma ArrivalsStep(rounds: seq<Round>, used: nat)
    requires used < |rounds|
    ensures Arrivals(rounds[..used + 1]) == Arrivals(rounds[..used]) + rounds[used].arrivals
    ensures var more := Served(rounds[..used]) + 1;
            Served(rounds[..used + 1])
            == if more <= |Arrivals(rounds[..used + 1])| then more else |Arrivals(rounds[..used + 1])|
  {
    assert rounds[..used + 1][..used] == rounds[..used];
  }

  /** What one pass makes of it, given what was queued. */
  lemma PassOutcome(rounds: seq<Round>, used: nat, written: seq<Message>, queued: seq<Message>)
    requires used < |rounds| && StillLooping(rounds, used, written)
    requires written + queued == Arrivals(rounds[..used]) + rounds[used].arrivals
    ensures var r := rounds[used];
            && (r.isCancelled ==> LoopExact(rounds, used + 1, written, Some(Cancelled)))
            && (!r.isCancelled && queued == [] ==> StillLooping(rounds, used + 1, written))
            && (!r.isCancelled && queued != [] && !r.writeOk ==>
                  LoopExact(rounds, used + 1, written, Some(WriteFailed)))
            && (!r.isCancelled && queued != [] && r.writeOk ==>
                  if queued[0].done then LoopExact(rounds, used + 1, written + [queued[0]], Some(AfterDone))
                  else StillLooping(rounds, used + 1, written + [queued[0]]))
  {
    ArrivalsStep(rounds, used);
    ServedOneAPass(rounds[..used]);
    ServedOneAPass(rounds[..used + 1]);
    hide OneAPass, Arrivals, Served;
    var next := Arrivals(rounds[..used + 1]);
    assert next == written + queued;
    if queued != [] {
      assert written + [queued[0]] <= next;
    }
  }

  /** The same, by what the consumer's lock region decides. */
  lemma PassDecides(H: Handler, rounds: seq<Round>, used: nat, written: seq<Message>)
    requires used < |rounds| && Started(H) && StillLooping(rounds, used, written)
    requires Serve(H, rounds[..used]).phase.Consuming? && Serve(H, rounds[..used]).written == written
    ensures var P := Polled(PushAll(Serve(H, rounds[..used]), rounds[used].arrivals), rounds[used].isCancelled);
            match P.phase
            case Leaving(e) => e == Cancelled && LoopExact(rounds, used + 1, written, Some(Cancelled))
            case Consuming => StillLooping(rounds, used + 1, written)
            case Writing(m) =>
              if !rounds[used].writeOk then LoopExact(rounds, used + 1, written, Some(WriteFailed))
              else if m.done then LoopExact(rounds, used + 1, written + [m], Some(AfterDone))
              else StillLooping(rounds, used + 1, written + [m])
            case _ => true
  {
    hide StillLooping, LoopExact, Serve, PushAll;
    PassFinds(0, H, rounds[..used], rounds[used]);
    var A := PushAll(Serve(H, rounds[..used]), rounds[used].arrivals);
    PassOutcome(rounds, used, written, A.buf.chunks);
    if A.buf.chunks == [] {
      DrainedImpossible(A);
    }
  }

  lemma LoopsOn(rounds: seq<Round>, written: seq<Message>)
    requires StillLooping(rounds, |rounds|, written)
    ensures LoopExact(rounds, |rounds|, written, None)
  {
    ServedOneAPass(rounds[..|rounds|]);
  }

  /** The loop is still running after `used` passes, with this written and this buffer. */
  ghost predicate Running(H: Handler, rounds: seq<Round>, used: nat, written: seq<Message>, view: Buffer) {
    && used <= |rounds| && (forall i | 0 <= i < used :: !rounds[i].isCancelled)
    && Serve(H, rounds[..used]) == Serve(H, rounds[..used]).(buf := view, written := written, phase := Consuming)
    && (Started(H) ==> StillLooping(rounds, used, written))
  }

  /** It has left in its last pass. */
  ghost predicate LeftBy(H: Handler, rounds: seq<Round>, used: nat, written: seq<Message>, view: Buffer, e: Exit) {
    && used <= |rounds|
    && Serve(H, rounds[..used]) == Serve(H, rounds[..used]).(buf := view, written := written, phase := Leaving(e))
    && (Started(H) ==> LoopExact(rounds, used, written, Some(e)))
  }

  lemma RunningAtFirst(H: Handler, rounds: seq<Round>)
    requires H.phase == Consuming && H.written == []
    ensures Running(H, rounds, 0, [], H.buf)
  {
    assert rounds[..0] == [];
  }

  lemma RunningMeans(H: Handler, rounds: seq<Round>, used: nat, written: seq<Message>, view: Buffer)
    requires Running(H, rounds, used, written, view) && used < |rounds|
    ensures Serve(H, rounds[..used]).buf == view && Serve(H, rounds[..used]).phase == Consuming
    ensures PushAll(Serve(H, rounds[..used]), rounds[used].arrivals).phase == Consuming
  {
    PushAllKeeps(Serve(H, rounds[..used]), rounds[used].arrivals);
  }

  lemma PassResult(H: Handler, rounds: seq<Round>, used: nat, written: seq<Message>, view: Buffer)
    requires used < |rounds| && exists before :: Running(H, rounds, used, written, before)
    requires Polled(PushAll(Serve(H, rounds[..used]), rounds[used].arrivals), rounds[used].isCancelled).buf == view
    ensures var r, next := rounds[used], used + 1;
            match Polled(PushAll(Serve(H, rounds[..used]), r.arrivals), r.isCancelled).phase
            case Consuming => Running(H, rounds, next, written, view)
            case Leaving(e) => LeftBy(H, rounds, next, written, view, e)
            case Writing(m) =>
              if !r.writeOk then LeftBy(H, rounds, next, written, view, WriteFailed)
              else if m.done then LeftBy(H, rounds, next, written + [m], view, AfterDone)
              else Running(H, rounds, next, written + [m], view)
            case _ => true
  {
    hide StillLooping, LoopExact, Started;
    var K, r := Serve(H, rounds[..used]), rounds[used];
    ServeNext(H, rounds, used);
    PushAllKeeps(K, r.arrivals);
    if Started(H) {
      PassDecides(H, rounds, used, written);
    }
    hide Serve, PushAll;
  }

  lemma LoopEnds(H: Handler, rounds: seq<Round>, used: nat, written: seq<Message>, view: Buffer, exit: Option<Exit>)
    requires match exit
             case None => used == |rounds| && Running(H, rounds, used, written, view)
             case Some(e) => LeftBy(H, rounds, used, written, view, e)
    ensures used <= |rounds| && (exit == None ==> forall r | r in rounds :: !r.isCancelled)
    ensures var K := Serve(H, rounds[..used]);
            K.buf == view && K.written == written &&
            K.phase == match exit case None => Consuming case Some(e) => Leaving(e)
    ensures Started(H) ==> LoopExact(rounds, used, written, exit)
    ensures Started(H) && NothingFails(rounds) && ClosesInTime(rounds) ==> exit == Some(AfterDone)
  {
    hide LoopExact, StillLooping, Serve, NothingFails, ClosesInTime;
    if Started(H) {
      if exit == None {
        LoopsOn(rounds, written);
      }
      if NothingFails(rounds) && ClosesInTime(rounds) {
        MustLeave(rounds, used, written, exit);
      }
    }
  }

  class ChunkBuffer {
    var chunks: seq<Message>
    var finished: bool
    var cancelled: bool

    ghost function View(): Buffer
      reads this
    {
      Buffer(chunks, finished, cancelled)
    }

    constructor ()
      ensures View() == Buffer([], false, false)
    {
      chunks, finished, cancelled := [], false, false;
    }

    /** The producer's lock region. */
    method Push(r: Message)
      modifies this
      ensures View() == PushChunk(old(View()), r)
    {
      chunks := chunks + [r];
      if r.done {
        finished := true;
      }
    }

    method PushEach(rs: seq<Message>, ghost H: Handler)
      requires H.buf == View()
      modifies this
      ensures PushAll(H, rs).buf == View()
      ensures PushAll(H, rs).(buf := H.buf, dispatched := H.dispatched) == H
    {
      for i := 0 to |rs|
        invariant PushAll(H, rs[..i]).buf == View()
        invariant PushAll(H, rs[..i]).(buf := H.buf, dispatched := H.dispatched) == H
      {
        assert rs[..i + 1][..i] == rs[..i];
        Push(rs[i]);
      }
      assert rs[..|rs|] == rs;
    }

    /** The consumer's lock region: what it decided, and the chunk it took if it took one. */
    method Poll(isCancelled: bool, ghost H: Handler) returns (took: Option<Message>, exit: Option<Exit>)
      requires H.buf == View() && H.phase.Consuming?
      modifies this
      ensures Polled(H, isCancelled).buf == View()
      ensures Polled(H, isCancelled).phase ==
              match took
              case Some(m) => Writing(m)
              case None => match exit case Some(e) => Leaving(e) case None => Consuming
    {
      took, exit := None, None;
      if isCancelled {
        cancelled := true;
        exit := Some(Cancelled);
      } else if chunks != [] {
        took := Some(chunks[0]);
        chunks := chunks[1..];
      } else if finished {
        exit := Some(Drained);
      }
    }
  }

  class ServiceImpl {
    var sessions: map<string, ChunkBuffer>
    var counter: nat

    constructor ()
      ensures sessions == map[] && counter == 0
    {
      sessions, counter := map[], 0;
    }

    method Register(sid: string) returns (buf: ChunkBuffer)
      modifies this`sessions
      ensures fresh(buf) && buf.View() == Buffer([], false, false)
      ensures sessions == old(sessions)[sid := buf]
    {
      buf := new ChunkBuffer();
      sessions := sessions[sid := buf];
    }

    method EraseSession(sid: string)
      modifies this`sessions
      ensures sessions == old(sessions) - {sid}
    {
      sessions := sessions - {sid};
    }

    /** A response reaches the buffer its id leads to, and no other; without one it is dropped. */
    method DispatchChunk(m: Message)
      modifies sessions.Values
      ensures sessions == old(sessions)
      ensures m.sid in sessions ==> sessions[m.sid].View() == PushChunk(old(sessions[m.sid].View()), m)
      ensures forall b | b in sessions.Values && (m.sid in sessions ==> b != sessions[m.sid]) ::
                b.View() == old(b.View())
    {
      if m.sid !in sessions {
        return;
      }
      sessions[m.sid].Push(m);
    }

    /** The consumer loop, over a finite script of passes, of which it makes `used`; `None` means it is
        still running. It refines the specification pass by pass, and a call that has just entered it writes
        one chunk a pass whenever one is queued: `LoopExact` says what is out and why it left. */
    method ConsumerLoop(buf: ChunkBuffer, rounds: seq<Round>, ghost H: Handler)
      returns (written: seq<Message>, exit: Option<Exit>, used: nat)
      requires H.buf == buf.View() && H.phase == Consuming && H.written == []
      modifies buf
      ensures used <= |rounds| && (exit == None ==> used == |rounds| && forall r | r in rounds :: !r.isCancelled)
      ensures var K := Serve(H, rounds[..used]);
              K.buf == buf.View() && K.written == written &&
              K.phase == match exit case None => Consuming case Some(e) => Leaving(e)
      ensures Started(H) ==> LoopExact(rounds, used, written, exit)
      ensures Started(H) && NothingFails(rounds) && ClosesInTime(rounds) ==> exit == Some(AfterDone)
    {
      hide PushAll, Serve, Polled, Running, LeftBy, Started, LoopExact, ClosesInTime, NothingFails;
      written, exit, used := [], None, 0;
      ghost var view := buf.View();
      RunningAtFirst(H, rounds);
      while used < |rounds|
        invariant used <= |rounds| && exit == None && view == buf.View() && Running(H, rounds, used, written, view)
      {
        var r := rounds[used];
        ghost var A := PushAll(Serve(H, rounds[..used]), r.arrivals);
        RunningMeans(H, rounds, used, written, view);
        buf.PushEach(r.arrivals, Serve(H, rounds[..used]));
        var took, left := buf.Poll(r.isCancelled, A);
        view := buf.View();
        PassResult(H, rounds, used, written, view);
        used := used + 1;
        match took {
          case None =>
            if left.Some? {
              exit := left;
              break;
            }
          case Some(out) =>
            if !r.writeOk {
              exit := Some(WriteFailed);
              break;
            }
            written := written + [out];
            if out.done {
              exit := Some(AfterDone);
              break;
            }
        }
      }
      LoopEnds(H, rounds, used, written, view, exit);
    }

    /** A whole call, undisturbed by others. It takes an id, registers, and leaves the session map
        without that id however it ends. A refused call writes the error. Any other writes what arrives, one
        chunk a pass, and leaves through the first closing message if that comes in time and nothing fails. */
    method SubmitQuery(requested: string, sendOk: bool, writeOk: bool, rounds: seq<Round>)
      returns (sid: string, written: seq<Message>, exit: Option<Exit>, ghost used: nat)
      modifies this
      ensures sid == ResolveSid(requested, old(counter))
      ensures if requested != "" then sid == requested else sid == "sess-" + Decimal(old(counter) + 1)
      ensures counter == if requested == "" then old(counter) + 1 else old(counter)
      ensures used <= |rounds| && exit != Some(Drained)
      ensures exit.Some? ==> sessions == old(sessions) - {sid}
      ensures exit == None ==> sid in sessions && fresh(sessions[sid])
      ensures exit == None ==> sid in sessions && sessions == old(sessions)[sid := sessions[sid]]
      ensures exit == None ==> forall r | r in rounds :: !r.isCancelled
      ensures !sendOk ==>
                && exit == Some(NotReady)
                && written == if writeOk then [Message(sid, "[error] WebRTC channel not ready", 0, true, 0)] else []
      ensures sendOk ==> LoopExact(rounds, used, written, exit)
      ensures sendOk && NothingFails(rounds) && ClosesInTime(rounds) ==> exit == Some(AfterDone)
    {
      sid := requested;
      if requested == "" {
        counter := counter + 1;
        sid := "sess-" + Decimal(counter);
      }
      used := 0;
      var buf := Register(sid);
      if !sendOk {
        written := if writeOk then [ErrorMessage(sid, 0)] else [];
        exit := Some(NotReady);
      } else {
        ghost var H := Handler(sid, Consuming, Buffer([], false, false), [], 0, [], []);
        var passes;
        written, exit, passes := ConsumerLoop(buf, rounds, H);
        used := passes;
      }
      if exit.Some? {
        EraseSession(sid);
      }
    }
  }

  // ---- the server's sender ----------------------------------------------------------

  /** The server's end of the control channel, which may not have been opened yet. */
  class ResponseSender {
    var channelOpen: bool
    var sent: seq<Message>

    constructor (channelOpen: bool)
      ensures this.channelOpen == channelOpen && sent == []
    {
      this.channelOpen, sent := channelOpen, [];
    }

    method SendResponse(m: Message)
      modifies this`sent
      ensures sent == if channelOpen then old(sent) + [m] else old(sent)
    {
      if !channelOpen {
        return;
      }
      sent := sent + [m];
    }

    /** Answering one query: the numbered chunks, then the closing message with the error if there was one. */
    method Answer(sid: string, origin: nat, plan: Plan)
      modifies this`sent
      ensures sent == if channelOpen then old(sent) + StreamOf(sid, origin, plan) else old(sent)
      ensures channelOpen ==>
                && |sent| == |old(sent)| + |plan.chunks| + 1 && old(sent) <= sent
                && (forall i | 0 <= i < |plan.chunks| ::
                      sent[|old(sent)| + i] == Message(sid, plan.chunks[i], i, false, origin))
                && sent[|sent| - 1].sid == sid && sent[|sent| - 1].done && sent[|sent| - 1].chunk == |plan.chunks|
                && sent[|sent| - 1].text == match plan.failure case None => "" case Some(e) => "[error] " + e
    {
      var chunkIndex := 0;
      ghost var stream := StreamOf(sid, origin, plan);
      while chunkIndex < |plan.chunks|
        invariant chunkIndex <= |plan.chunks|
        invariant sent == if channelOpen then old(sent) + stream[..chunkIndex] else old(sent)
      {
        SendResponse(Message(sid, plan.chunks[chunkIndex], chunkIndex, false, origin));
        chunkIndex := chunkIndex + 1;
      }
      match plan.failure {
        case None => SendResponse(Message(sid, "", chunkIndex, true, origin));
        case Some(e) => SendResponse(Message(sid, "[error] " + e, chunkIndex, true, origin));
      }
      assert stream[..chunkIndex] + [stream[chunkIndex]] == stream;
    }
  }

  // ---- the prompt app ---------------------------------------------------------------

  lemma {:induction false} PrintedStops(ms: seq<Message>, read: nat)
    requires read <= |ms| && NoDone(ms[..if read == 0 then 0 else read - 1])
    requires read < |ms| ==> read > 0 && ms[read - 1].done
    ensures Theorems.Printed(ms) == Theorems.Printed(ms[..read])
  {
    if read == |ms| {
      assert ms[..read] == ms;
    } else {
      assert ms[..read][0] == ms[0] && ms[..read][1..] == ms[1..][..read - 1];
      if read > 1 {
        var before := ms[..read - 1];
        assert !before[0].done;
        assert ms[1..][..read - 2] == before[1..];
        assert forall i | 0 <= i < |before[1..]| :: before[1..][i] == before[i + 1];
        PrintedStops(ms[1..], read - 1);
      }
    }
  }

  /** Prints every non-empty text as it comes, and stops after the first closing message: it prints the
      texts of the `read` messages up to there, or of all of them. */
  method ReceiveLoop(responses: seq<Message>) returns (printed: string, ghost read: nat)
    ensures printed == Theorems.Printed(responses)
    ensures read <= |responses| && printed == Engine.Concat(Theorems.Texts(responses[..read]))
    ensures NoDone(responses[..if read == 0 then 0 else read - 1])
    ensures read < |responses| ==> read > 0 && responses[read - 1].done
  {
    hide Theorems.Printed;
    printed, read := "", 0;
    for i := 0 to |responses|
      invariant read == i && NoDone(responses[..i])
      invariant printed == Engine.Concat(Theorems.Texts(responses[..i]))
    {
      assert Theorems.Texts(responses[..i + 1])[..i] == Theorems.Texts(responses[..i]);
      if responses[i].text != "" {
        printed := printed + responses[i].text;
      }
      read := i + 1;
      if responses[i].done {
        break;
      }
    }
    PrintedStops(responses, read);
    var all := responses[..read];
    assert all[..if read == 0 then 0 else read - 1] == responses[..if read == 0 then 0 else read - 1];
    Theorems.PrintedConcat(all);
  }
}
