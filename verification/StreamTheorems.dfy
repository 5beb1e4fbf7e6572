/** What every caller is promised: order, completeness, and the exact conditions on session ids. */
module StreamTheorems {
  import opened Options
  import opened ResponseStream
  import opened StreamProofs
  import Engine = VlmEngine

  ghost predicate Reaches(actions: seq<Action>, s: State) {
    Run(actions) == Some(s)
  }

  lemma ReachableHandler(actions: seq<Action>, s: State, h: nat)
    requires Reaches(actions, s) && h in s.handlers
    ensures Inv(s) && HandlerOk(s.sessions, s.routed, s.dispatch, h, s.handlers[h])
  {
    RunKeeps(actions);
  }

  /** The call ended, or is about to end, because the query could not be sent. */
  predicate Refused(H: Handler) {
    (H.phase.Leaving? || H.phase.Gone?) && H.phase.exit == NotReady
  }

  // ---- conservation and order -------------------------------------------------------

  /** In every reachable state, what was taken out of a buffer followed by what is queued in it is
      what was pushed; a consumer never meets an empty buffer marked finished. */
  lemma ProducerConsumer(actions: seq<Action>, s: State, h: nat)
    requires Reaches(actions, s) && h in s.handlers
    ensures var H := s.handlers[h];
            && H.consumed + H.buf.chunks == H.dispatched
            && (H.buf.finished <==> HasDone(H.consumed) || HasDone(H.buf.chunks))
            && (H.phase.Consuming? ==> !(H.buf.finished && H.buf.chunks == []))
            && (H.phase.Leaving? || H.phase.Gone? ==> H.phase.exit != Drained)
  {
    ReachableHandler(actions, s, h);
    var H := s.handlers[h];
    HasDoneSplit(H.consumed, H.buf.chunks);
    if H.phase.Consuming? && H.buf.chunks == [] {
      DrainedImpossible(H);
    }
  }

  lemma HasDoneSplit(a: seq<Message>, b: seq<Message>)
    ensures HasDone(a + b) <==> HasDone(a) || HasDone(b)
  {
    if HasDone(a) {
      var i :| 0 <= i < |a| && a[i].done;
      assert (a + b)[i].done;
    }
    if HasDone(b) {
      var i :| 0 <= i < |b| && b[i].done;
      assert (a + b)[|a| + i].done;
    }
    if HasDone(a + b) {
      var i :| 0 <= i < |a + b| && (a + b)[i].done;
      assert if i < |a| then a[i].done else b[i - |a|].done;
    }
  }

  lemma WrittenWasDispatched(h: nat, H: Handler)
    requires Conserved(H) && WrittenFits(h, H) && !Refused(H)
    ensures H.written <= H.dispatched
  {
  }

  /** With no hypothesis at all: what a caller gets is, in order and without a gap, the beginning of
      what the server sent for its id from the caller's registration on. */
  lemma WrittenIsPrefix(actions: seq<Action>, s: State, h: nat)
    requires Reaches(actions, s) && h in s.handlers && !Refused(s.handlers[h])
    ensures var H := s.handlers[h];
            H.base <= |For(s.sent, H.sid)| && H.written <= SeenAll(For(s.sent, H.sid)[H.base..])
  {
    ReachableHandler(actions, s, h);
    var H := s.handlers[h];
    WrittenWasDispatched(h, H);
    var inHand := H.dispatched + Pending(s.dispatch, h);
    PrefixTransitive(H.written, H.dispatched, inHand);
    PrefixTransitive(H.written, inHand, Received(s.routed, H));
    ForConcat(s.routed, s.downlink, H.sid);
    var routed, sent := For(s.routed, H.sid), For(s.sent, H.sid);
    assert routed <= sent && routed[H.base..] <= sent[H.base..];
    SeenPrefix(routed[H.base..], sent[H.base..]);
    PrefixTransitive(H.written, Received(s.routed, H), SeenAll(sent[H.base..]));
  }

  /** A refused caller gets the local error message or, if that write failed, nothing; its query never
      reaches the server, so nobody ever answers it. */
  lemma RefusedGetsError(actions: seq<Action>, s: State, h: nat)
    requires Reaches(actions, s) && h in s.handlers && Refused(s.handlers[h])
    ensures s.handlers[h].written <= [ErrorMessage(s.handlers[h].sid, h)]
    ensures h !in s.tasks && forall i | 0 <= i < |s.sent| :: s.sent[i].origin != h
  {
    ReachableHandler(actions, s, h);
  }

  // ---- routing by live id -----------------------------------------------------------

  /** Every call between registration and erasure is the one its id leads to. */
  ghost predicate Attached(s: State) {
    forall h | h in s.handlers && !s.handlers[h].phase.Gone? :: Lookup(s.sessions, s.handlers[h].sid) == Some(h)
  }

  ghost predicate SameRouting(s: State, t: State) {
    && t.sessions == s.sessions && t.handlers.Keys == s.handlers.Keys
    && forall h | h in s.handlers ::
         t.handlers[h].sid == s.handlers[h].sid && (t.handlers[h].phase.Gone? <==> s.handlers[h].phase.Gone?)
  }

  lemma PutRouting(s: State, h: nat, K: Handler)
    requires h in s.handlers && K.sid == s.handlers[h].sid && (K.phase.Gone? <==> s.handlers[h].phase.Gone?)
    ensures SameRouting(s, Put(s, h, K))
  {
  }

  lemma SessionsStay(s: State, a: Action)
    requires Step(s, a).Some? && !a.Register? && !a.Erase?
    ensures SameRouting(s, Step(s, a).value)
  {
    var t := Step(s, a).value;
    match a
    case Begin(h) => PutRouting(s, h, t.handlers[h]);
    case Send(h, _) => PutRouting(s, h, t.handlers[h]);
    case WriteError(h, _) => PutRouting(s, h, t.handlers[h]);
    case Poll(h, _) => PutRouting(s, h, t.handlers[h]);
    case Write(h, _) => PutRouting(s, h, t.handlers[h]);
    case _ =>
  }

  /** The one step that can break the routing is registering an id that is still live, and it always does. */
  lemma AttachedStep(s: State, a: Action)
    requires Inv(s) && Attached(s) && Step(s, a).Some?
    ensures Attached(Step(s, a).value) <==> (a.Register? ==> a.sid !in s.sessions)
  {
    hide HandlerOk;
    var t := Step(s, a).value;
    if a.Register? {
      if a.sid in s.sessions {
        var g := s.sessions[a.sid];
        assert g in t.handlers && !t.handlers[g].phase.Gone?;
        assert Lookup(t.sessions, a.sid) == Some(a.h) != Some(g);
      }
    } else if !a.Erase? {
      SessionsStay(s, a);
    }
  }

  /** No call registers an id that is live at that moment. */
  ghost predicate DistinctLiveIds(actions: seq<Action>) {
    forall i | 0 <= i < |actions| ::
      actions[i].Register? && Run(actions[..i]).Some? ==> actions[i].sid !in Run(actions[..i]).value.sessions
  }

  lemma {:induction false} DistinctStayAttached(actions: seq<Action>)
    requires Run(actions).Some? && DistinctLiveIds(actions)
    ensures Attached(Run(actions).value)
  {
    if actions != [] {
      var init := actions[..|actions| - 1];
      forall i | 0 <= i < |init| ensures init[..i] == actions[..i] && init[i] == actions[i] {
      }
      DistinctStayAttached(init);
      RunKeeps(init);
      AttachedStep(Run(init).value, actions[|actions| - 1]);
    }
  }

  lemma {:induction false} PrefixRuns(actions: seq<Action>, i: nat)
    requires Run(actions).Some? && i <= |actions|
    ensures Run(actions[..i]).Some?
    ensures i < |actions| ==> Run(actions[..i + 1]) == Step(Run(actions[..i]).value, actions[i])
  {
    hide Step;
    if i == |actions| {
      assert actions[..i] == actions;
    } else {
      var init := actions[..|actions| - 1];
      if i + 1 < |actions| {
        assert init[..i] == actions[..i] && init[..i + 1] == actions[..i + 1];
        PrefixRuns(init, i);
      } else {
        assert actions[..i + 1] == actions;
      }
    }
  }

  /** Calls are attached at every moment of a run if and only if no call of it registers a live id. */
  lemma AttachedExactly(actions: seq<Action>)
    requires Run(actions).Some?
    ensures (forall i | 0 <= i <= |actions| :: Run(actions[..i]).Some? ==> Attached(Run(actions[..i]).value))
            <==> DistinctLiveIds(actions)
  {
    hide Run, Step, Attached;
    if DistinctLiveIds(actions) {
      forall i | 0 <= i <= |actions| && Run(actions[..i]).Some? ensures Attached(Run(actions[..i]).value) {
        var init := actions[..i];
        forall k | 0 <= k < |init| ensures init[..k] == actions[..k] && init[k] == actions[k] {
        }
        DistinctStayAttached(init);
      }
    }
    if forall i | 0 <= i <= |actions| :: Run(actions[..i]).Some? ==> Attached(Run(actions[..i]).value) {
      forall i | 0 <= i < |actions| && actions[i].Register? && Run(actions[..i]).Some?
        ensures actions[i].sid !in Run(actions[..i]).value.sessions
      {
        PrefixRuns(actions, i);
        PrefixRuns(actions, i + 1);
        RunKeeps(actions[..i]);
        AttachedStep(Run(actions[..i]).value, actions[i]);
      }
    }
  }

  /** With distinct live ids, from registration to erasure every response the client receives for the
      id reaches that call's buffer, in order, and nothing else does. */
  lemma RegisteredGetsAll(actions: seq<Action>, s: State, h: nat)
    requires Reaches(actions, s) && DistinctLiveIds(actions)
    requires h in s.handlers && !s.handlers[h].phase.Gone?
    ensures var H := s.handlers[h];
            H.base <= |For(s.routed, H.sid)| &&
            H.dispatched + Pending(s.dispatch, h) == SeenAll(For(s.routed, H.sid)[H.base..])
  {
    ReachableHandler(actions, s, h);
    DistinctStayAttached(actions);
  }

  // ---- whole streams ----------------------------------------------------------------

  lemma StreamEndsOnce(sid: string, h: nat, plan: Plan, pos: nat, written: seq<Message>)
    requires pos <= |plan.chunks| + 1 && written <= SeenAll(StreamOf(sid, h, plan)[..pos])
    requires written != [] && written[|written| - 1].done
    ensures pos == |plan.chunks| + 1 && written == SeenAll(StreamOf(sid, h, plan))
  {
    var stream := StreamOf(sid, h, plan);
    assert written[|written| - 1] == Seen(stream[|written| - 1]);
    assert stream[..|stream|] == stream;
  }

  function Texts(ms: seq<Message>): (r: seq<string>)
    ensures |r| == |ms| && forall i | 0 <= i < |ms| :: r[i] == ms[i].text
  {
    seq(|ms|, i requires 0 <= i < |ms| => ms[i].text)
  }

  /** The prompt app's loop: print every text up to and including the first closing message. */
  function Printed(ms: seq<Message>): string {
    if ms == [] then "" else if ms[0].done then ms[0].text else ms[0].text + Printed(ms[1..])
  }

  lemma {:induction false} PrintedConcat(ms: seq<Message>)
    requires NoDone(ms[..if ms == [] then 0 else |ms| - 1])
    ensures Printed(ms) == Engine.Concat(Texts(ms))
  {
    if ms != [] {
      Engine.ConcatCons(ms[0].text, Texts(ms[1..]));
      assert Texts(ms) == [ms[0].text] + Texts(ms[1..]);
      if |ms| == 1 {
        assert Printed(ms[1..]) == "" && Texts(ms[1..]) == [];
      } else {
        assert !ms[..|ms| - 1][0].done;
        var init, rest := ms[..|ms| - 1], ms[1..][..|ms| - 2];
        forall i | 0 <= i < |rest| ensures !rest[i].done {
          assert rest[i] == init[i + 1];
        }
        PrintedConcat(ms[1..]);
      }
    }
  }

  lemma StreamPrints(sid: string, h: nat, plan: Plan)
    ensures Printed(SeenAll(StreamOf(sid, h, plan))) == Engine.Concat(plan.chunks) + FinalText(plan)
  {
    var ms := SeenAll(StreamOf(sid, h, plan));
    PrintedConcat(ms);
    assert Texts(ms) == plan.chunks + [FinalText(plan)];
    assert (plan.chunks + [FinalText(plan)])[..|plan.chunks|] == plan.chunks;
  }

  // ---- where the hypotheses matter --------------------------------------------------

  predicate Same(s: State, t: State) {
    && s.sessions == t.sessions && s.handlers == t.handlers && s.uplink == t.uplink && s.tasks == t.tasks
    && s.downlink == t.downlink && s.dispatch == t.dispatch && s.mode == t.mode && s.armed == t.armed
    && s.sent == t.sent && s.routed == t.routed
    && s.begun == t.begun && s.ended == t.ended && s.failed == t.failed
  }

  lemma Hop(actions: seq<Action>, s: State, a: Action, t: State)
    requires Reaches(actions, s) && Step(s, a).Some? && Same(Step(s, a).value, t)
    ensures Reaches(actions + [a], t)
  {
    assert (actions + [a])[..|actions|] == actions;
  }

  lemma Start()
    ensures Reaches([], INIT)
  {
  }

  function Caller(sid: string, phase: Phase): Handler {
    Handler(sid, phase, Buffer([], false, false), [], 0, [], [])
  }

  lemma OneAsked(sid: string) returns (actions: seq<Action>, s: State)
    ensures Reaches(actions, s)
    ensures s == INIT.(sessions := map[sid := 0], handlers := map[0 := Caller(sid, Consuming)],
                       uplink := [Request(sid, 0)], mode := CaptureMode.Query, begun := 1)
  {
    hide Run;
    Start();
    var s1 := INIT.(sessions := map[sid := 0], handlers := map[0 := Caller(sid, Registered)]);
    var s2 := s1.(handlers := map[0 := Caller(sid, Begun)], mode := CaptureMode.Query, begun := 1);
    s := s2.(handlers := map[0 := Caller(sid, Consuming)], uplink := [Request(sid, 0)]);
    actions := [];
    Hop(actions, INIT, Register(0, sid), s1);
    actions := actions + [Register(0, sid)];
    Hop(actions, s1, Begin(0), s2);
    actions := actions + [Begin(0)];
    Hop(actions, s2, Send(0, true), s);
    actions := actions + [Send(0, true)];
  }

  /** Two calls have put their queries on the channel. */
  lemma TwoAsked(sid: string, other: string) returns (actions: seq<Action>, s: State)
    ensures Reaches(actions, s)
    ensures s == INIT.(sessions := map[sid := 0][other := 1],
                       handlers := map[0 := Caller(sid, Consuming), 1 := Caller(other, Consuming)],
                       uplink := [Request(sid, 0), Request(other, 1)], mode := CaptureMode.Query, begun := 2)
  {
    var a, s0 := OneAsked(sid);
    hide Run;
    actions := a;
    var first := s0.handlers;
    var s1 := s0.(sessions := s0.sessions[other := 1], handlers := first[1 := Caller(other, Registered)]);
    var s2 := s1.(handlers := first[1 := Caller(other, Begun)], begun := 2);
    s := s2.(handlers := map[0 := Caller(sid, Consuming), 1 := Caller(other, Consuming)],
             uplink := [Request(sid, 0), Request(other, 1)]);
    Hop(actions, s0, Register(1, other), s1);
    actions := actions + [Register(1, other)];
    Hop(actions, s1, Begin(1), s2);
    actions := actions + [Begin(1)];
    Hop(actions, s2, Send(1, true), s);
    actions := actions + [Send(1, true)];
  }

  function Closing(sid: string, origin: nat): Message {
    Message(sid, "", 0, true, origin)
  }

  /** Two calls under one id, both queries answered by one closing response that is on the channel. */
  lemma BothAnswered() returns (actions: seq<Action>, s: State)
    ensures Reaches(actions, s) && s.sessions == map["a" := 1] && s.uplink == [] && s.dispatch == Ready
    ensures s.handlers == map[0 := Caller("a", Consuming), 1 := Caller("a", Consuming)] && s.routed == []
    ensures s.downlink == [Closing("a", 0), Closing("a", 1)]
    ensures s.tasks == map[0 := Task("a", Plan([], None), 1), 1 := Task("a", Plan([], None), 1)]
  {
    var a, s0 := TwoAsked("a", "a");
    hide Run;
    actions := a;
    var plan := Plan([], None);
    var sent0, sent1 := [Closing("a", 0)], [Closing("a", 0), Closing("a", 1)];
    var s1 := s0.(uplink := [Request("a", 1)], tasks := map[0 := Task("a", plan, 0)]);
    var s2 := s1.(uplink := [], tasks := map[0 := Task("a", plan, 0), 1 := Task("a", plan, 0)]);
    var s3 := s2.(tasks := map[0 := Task("a", plan, 1), 1 := Task("a", plan, 0)], downlink := sent0, sent := sent0);
    s := s3.(tasks := map[0 := Task("a", plan, 1), 1 := Task("a", plan, 1)], downlink := sent1, sent := sent1);
    Hop(actions, s0, Accept(plan), s1);
    actions := actions + [Accept(plan)];
    Hop(actions, s1, Accept(plan), s2);
    actions := actions + [Accept(plan)];
    Hop(actions, s2, Emit(0), s3);
    actions := actions + [Emit(0)];
    Hop(actions, s3, Emit(1), s);
    actions := actions + [Emit(1)];
  }

  /** One closing response is received, pushed where its id leads, and handled. */
  lemma Handled(actions: seq<Action>, s: State) returns (more: seq<Action>, t: State)
    requires Reaches(actions, s) && s.dispatch == Ready && s.downlink != [] && s.downlink[0].done
    ensures Reaches(more, t)
    ensures t.dispatch == Ready && t.sessions == s.sessions && t.uplink == s.uplink && t.tasks == s.tasks
    ensures t.downlink == s.downlink[1..] && t.routed == s.routed + [s.downlink[0]]
    ensures match Lookup(s.sessions, s.downlink[0].sid)
            case Some(h) =>
              h in s.handlers ==> t.handlers == s.handlers[h := Pushed(s.handlers[h], Seen(s.downlink[0]))]
            case None => t.handlers == s.handlers
  {
    hide Run, Seen, Pushed, Lookup;
    var m := s.downlink[0];
    var s1 := Step(s, Receive).value;
    Hop(actions, s, Receive, s1);
    assert s1.dispatch.m.done by {
      assert Seen(m).done == m.done by { SeenDone(m); }
    }
    var s2 := Step(s1, Push).value;
    Hop(actions + [Receive], s1, Push, s2);
    t := Step(s2, End).value;
    Hop(actions + [Receive] + [Push], s2, End, t);
    more := actions + [Receive] + [Push] + [End];
  }

  lemma SeenDone(m: Message)
    ensures Seen(m).done == m.done
  {
  }

  /** A second call reusing a live id detaches the first: every response under the id, the first call's
      own among them, goes to the second, and the first waits with nothing left to come. */
  lemma FirstDetached() returns (actions: seq<Action>, s: State)
    ensures Reaches(actions, s) && 0 in s.handlers && 1 in s.handlers
    ensures s.handlers[0].phase == Consuming && s.handlers[0].dispatched == []
    ensures s.handlers[1].dispatched == [Closing("a", 0), Closing("a", 1)]
    ensures s.uplink == [] && s.downlink == [] && forall k | k in s.tasks :: !Unfinished(s.tasks[k])
  {
    actions, s := BothAnswered();
    hide Run, Step;
    actions, s := Handled(actions, s);
    actions, s := Handled(actions, s);
  }

  /** The first call's erasure removes the second's entry: the second waits, its closing response already
      received and dropped, with nothing left to come. */
  lemma SecondRemoved() returns (actions: seq<Action>, s: State)
    ensures Reaches(actions, s) && 0 in s.handlers && 1 in s.handlers
    ensures s.handlers[0].phase == Gone(Cancelled)
    ensures s.handlers[1].phase == Consuming && s.handlers[1].dispatched == [] && Closing("a", 1) in s.routed
    ensures s.uplink == [] && s.downlink == [] && forall k | k in s.tasks :: !Unfinished(s.tasks[k])
  {
    var a, s0 := BothAnswered();
    hide Run;
    var left := Caller("a", Leaving(Cancelled)).(buf := Buffer([], false, true));
    var s1 := s0.(handlers := s0.handlers[0 := left]);
    var s2 := s1.(handlers := s0.handlers[0 := left.(phase := Gone(Cancelled))], sessions := map[]);
    Hop(a, s0, Poll(0, true), s1);
    Hop(a + [Poll(0, true)], s1, Erase(0), s2);
    hide Step;
    actions, s := Handled(a + [Poll(0, true)] + [Erase(0)], s2);
    actions, s := Handled(actions, s);
  }

  /** What reusing a live id can do, from the same two queries on the channel: strand the first call by
      giving its answer to the second, or strand the second by the first one's erasure. */
  lemma ReusedLiveIdStrandsBoth() returns (a: seq<Action>, s: State, b: seq<Action>, t: State)
    ensures Reaches(a, s) && 0 in s.handlers && 1 in s.handlers
    ensures s.handlers[0].phase == Consuming && s.handlers[0].dispatched == []
    ensures exists m | m in s.handlers[1].dispatched :: m.origin == 0
    ensures s.uplink == [] && s.downlink == [] && forall k | k in s.tasks :: !Unfinished(s.tasks[k])
    ensures Reaches(b, t) && 0 in t.handlers && 1 in t.handlers && t.handlers[0].phase == Gone(Cancelled)
    ensures t.handlers[1].phase == Consuming && t.handlers[1].dispatched == [] && Closing("a", 1) in t.routed
    ensures t.uplink == [] && t.downlink == [] && forall k | k in t.tasks :: !Unfinished(t.tasks[k])
  {
    a, s := FirstDetached();
    assert s.handlers[1].dispatched[0].origin == 0;
    b, t := SecondRemoved();
  }

  /** A first call for "a" was sent, cancelled and erased; its query is on the channel. */
  lemma CancelledFirst() returns (actions: seq<Action>, s: State)
    ensures Reaches(actions, s)
    ensures s == INIT.(handlers := map[0 := Caller("a", Gone(Cancelled)).(buf := Buffer([], false, true))],
                       uplink := [Request("a", 0)], mode := CaptureMode.Query, begun := 1)
  {
    var a, s0 := OneAsked("a");
    hide Run;
    actions := a;
    var left := Caller("a", Leaving(Cancelled)).(buf := Buffer([], false, true));
    var s1 := s0.(handlers := map[0 := left]);
    s := s1.(handlers := map[0 := left.(phase := Gone(Cancelled))], sessions := map[]);
    Hop(actions, s0, Poll(0, true), s1);
    actions := actions + [Poll(0, true)];
    Hop(actions, s1, Erase(0), s);
    actions := actions + [Erase(0)];
  }

  /** The abandoned query has been answered by one closing message, while a second call for "a",
      registered after the first was erased, waits for its own. */
  lemma SecondWaiting() returns (actions: seq<Action>, s: State)
    ensures Reaches(actions, s)
    ensures s.sessions == map["a" := 1] && s.dispatch == Ready && s.downlink == [Closing("a", 0)]
    ensures 1 in s.handlers && s.handlers[1] == Caller("a", Consuming) && 1 !in s.tasks
  {
    var a, s0 := CancelledFirst();
    hide Run;
    actions := a;
    var plan, m := Plan([], None), Closing("a", 0);
    var first := s0.handlers;
    var s1 := s0.(handlers := first[1 := Caller("a", Registered)], sessions := map["a" := 1]);
    var s2 := s1.(handlers := first[1 := Caller("a", Begun)], begun := 2);
    var s3 := s2.(handlers := first[1 := Caller("a", Consuming)], uplink := [Request("a", 0), Request("a", 1)]);
    var s4 := s3.(uplink := [Request("a", 1)], tasks := map[0 := Task("a", plan, 0)]);
    s := s4.(tasks := map[0 := Task("a", plan, 1)], downlink := [m], sent := [m]);
    Hop(actions, s0, Register(1, "a"), s1);
    actions := actions + [Register(1, "a")];
    Hop(actions, s1, Begin(1), s2);
    actions := actions + [Begin(1)];
    Hop(actions, s2, Send(1, true), s3);
    actions := actions + [Send(1, true)];
    Hop(actions, s3, Accept(plan), s4);
    actions := actions + [Accept(plan)];
    Hop(actions, s4, Emit(0), s);
    actions := actions + [Emit(0)];
  }

  /** An id reused after its first call was cancelled, so never live twice: the second caller is given
      the first query's stream and leaves through its `done`, before its own query is even answered. */
  lemma ReusedDeadIdInheritsStream() returns (actions: seq<Action>, s: State)
    ensures Reaches(actions, s) && 1 in s.handlers && s.handlers[1].phase == Leaving(AfterDone)
    ensures s.handlers[1].written == [Closing("a", 0)] && 1 !in s.tasks
  {
    var a, s0 := SecondWaiting();
    hide Run;
    actions := a;
    var m, H := s0.downlink[0], s0.handlers[1];
    var s1 := s0.(downlink := [], routed := s0.routed + [m], dispatch := Found(m, Some(1)));
    var H2 := H.(buf := Buffer([m], true, false), dispatched := [m]);
    var s2 := s1.(handlers := s0.handlers[1 := H2], dispatch := Ending(m));
    var H3 := H2.(buf := Buffer([], true, false), phase := Writing(m), consumed := [m]);
    var s3 := s2.(handlers := s0.handlers[1 := H3]);
    s := s2.(handlers := s0.handlers[1 := H3.(phase := Leaving(AfterDone), written := [m])]);
    Hop(actions, s0, Receive, s1);
    actions := actions + [Receive];
    assert Pushed(H, m) == H2;
    Hop(actions, s1, Push, s2);
    actions := actions + [Push];
    assert Polled(H2, false) == H3;
    Hop(actions, s2, Poll(1, false), s3);
    actions := actions + [Poll(1, false)];
    Hop(actions, s3, Write(1, true), s);
    actions := actions + [Write(1, true)];
  }
}
