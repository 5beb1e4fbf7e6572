/** The invariant of the response protocol and what follows from it for every run. */
module StreamProofs {
  import opened CaptureMode
  import opened Options
  import opened ResponseStream

  // ---- the invariant ----------------------------------------------------------------

  ghost predicate NoDone(ms: seq<Message>) {
    forall i | 0 <= i < |ms| :: !ms[i].done
  }

  ghost predicate HasDone(ms: seq<Message>) {
    exists i | 0 <= i < |ms| :: ms[i].done
  }

  /** Nothing pushed to a buffer is lost, repeated or reordered, and `finished` marks a pushed done. */
  ghost predicate Conserved(H: Handler) {
    && H.consumed + H.buf.chunks == H.dispatched
    && (H.buf.finished <==> HasDone(H.dispatched))
  }

  /** What has been written, by the state the handler is in. */
  ghost predicate WrittenFits(h: nat, H: Handler) {
    match H.phase
    case Registered | Begun | SendFailed => H.consumed == [] && H.written == []
    case Consuming => H.written == H.consumed && NoDone(H.consumed)
    case Writing(out) => H.consumed == H.written + [out] && NoDone(H.written)
    case Leaving(e) => WrittenOnExit(h, H, e)
    case Gone(e) => WrittenOnExit(h, H, e)
  }

  ghost predicate WrittenOnExit(h: nat, H: Handler, e: Exit) {
    match e
    case NotReady => H.consumed == [] && H.written <= [ErrorMessage(H.sid, h)]
    case AfterDone => H.written == H.consumed && H.written != [] && H.written[|H.written| - 1].done
                      && NoDone(H.written[..|H.written| - 1])
    case Cancelled => H.written == H.consumed && NoDone(H.written)
    case WriteFailed => H.written <= H.consumed && NoDone(H.written)
    case Drained => false
  }

  function Pending(d: Dispatch, h: nat): seq<Message> {
    if d.Found? && d.target == Some(h) then [d.m] else []
  }

  /** What the client received for the handler's id after the handler registered. */
  function Received(routed: seq<Message>, H: Handler): seq<Message>
    requires H.base <= |For(routed, H.sid)|
  {
    SeenAll(For(routed, H.sid)[H.base..])
  }

  /** The handler's buffer has been given, in order and from the start, what was received for its id;
      all of it while the session map names this handler. */
  ghost predicate Tracks(sessions: map<string, nat>, routed: seq<Message>, d: Dispatch, h: nat, H: Handler) {
    && H.base <= |For(routed, H.sid)|
    && H.dispatched + Pending(d, h) <= Received(routed, H)
    && (Lookup(sessions, H.sid) == Some(h) ==> H.dispatched + Pending(d, h) == Received(routed, H))
    && (forall i | 0 <= i < H.base :: For(routed, H.sid)[i].origin != h)
  }

  ghost predicate HandlerOk(sessions: map<string, nat>, routed: seq<Message>, d: Dispatch, h: nat, H: Handler) {
    Conserved(H) && WrittenFits(h, H) && Tracks(sessions, routed, d, h, H)
  }

  ghost predicate HandlersOk(sessions: map<string, nat>, routed: seq<Message>, d: Dispatch,
    handlers: map<nat, Handler>) {
    forall h | h in handlers :: HandlerOk(sessions, routed, d, h, handlers[h])
  }

  ghost predicate SessionsOk(sessions: map<string, nat>, handlers: map<nat, Handler>) {
    forall sid | sid in sessions ::
      sessions[sid] in handlers && handlers[sessions[sid]].sid == sid && !handlers[sessions[sid]].phase.Gone?
  }

  ghost predicate DispatchOk(d: Dispatch, handlers: map<nat, Handler>) {
    && (d.Found? && d.target.Some? ==> d.target.value in handlers && handlers[d.target.value].sid == d.m.sid)
    && (d.Ending? ==> d.m.done)
  }

  /** The handler's query has been put on the channel. */
  predicate Asked(phase: Phase) {
    match phase
    case Registered | Begun | SendFailed => false
    case Leaving(e) => e != NotReady
    case Gone(e) => e != NotReady
    case _ => true
  }

  ghost predicate OnChannel(handlers: map<nat, Handler>, sid: string, h: nat) {
    h in handlers && handlers[h].sid == sid && Asked(handlers[h].phase)
  }

  ghost predicate UplinkOk(handlers: map<nat, Handler>, uplink: seq<Request>, tasks: map<nat, Task>) {
    && (forall i | 0 <= i < |uplink| ::
        OnChannel(handlers, uplink[i].sid, uplink[i].origin) && uplink[i].origin !in tasks)
    && (forall i, j | 0 <= i < j < |uplink| :: uplink[i].origin != uplink[j].origin)
  }

  /** Each task has sent exactly the first messages of its stream, and nobody else sends. */
  ghost predicate TasksOk(handlers: map<nat, Handler>, tasks: map<nat, Task>, sent: seq<Message>) {
    && (forall t | t in tasks :: OnChannel(handlers, tasks[t].sid, t) && tasks[t].pos <= |tasks[t].plan.chunks| + 1
                                 && ByOrigin(sent, t) == StreamOf(tasks[t].sid, t, tasks[t].plan)[..tasks[t].pos])
    && (forall i | 0 <= i < |sent| :: sent[i].origin in tasks && tasks[sent[i].origin].sid == sent[i].sid)
  }

  ghost predicate Inv(s: State) {
    && HandlersOk(s.sessions, s.routed, s.dispatch, s.handlers)
    && SessionsOk(s.sessions, s.handlers)
    && DispatchOk(s.dispatch, s.handlers)
    && UplinkOk(s.handlers, s.uplink, s.tasks)
    && TasksOk(s.handlers, s.tasks, s.sent)
    && s.sent == s.routed + s.downlink
  }

  // ---- handler steps ----------------------------------------------------------------

  /** A step that rewrites one handler, keeps its identity and history, and does not un-ask its query. */
  ghost predicate Refits(h: nat, H: Handler, K: Handler) {
    && K.sid == H.sid && K.base == H.base && K.dispatched == H.dispatched
    && Conserved(K) && WrittenFits(h, K)
    && (Asked(H.phase) ==> Asked(K.phase)) && !K.phase.Gone?
  }

  lemma DrainedImpossible(H: Handler)
    requires Conserved(H) && NoDone(H.consumed) && H.buf.chunks == []
    ensures !H.buf.finished
  {
    assert H.consumed == H.dispatched;
  }

  lemma PolledFits(h: nat, H: Handler, isCancelled: bool)
    requires Conserved(H) && WrittenFits(h, H) && H.phase.Consuming?
    ensures Refits(h, H, Polled(H, isCancelled))
  {
    if H.buf.chunks == [] {
      DrainedImpossible(H);
    } else {
      assert H.consumed + [H.buf.chunks[0]] + H.buf.chunks[1..] == H.dispatched;
    }
  }

  lemma WroteFits(h: nat, H: Handler, ok: bool)
    requires Conserved(H) && WrittenFits(h, H) && H.phase.Writing?
    ensures Refits(h, H, Wrote(H, ok))
  {
    assert (H.written + [H.phase.out])[..|H.written|] == H.written;
  }

  /** `handlers'` keeps every handler's id, asked-ness and liveness. */
  ghost predicate Carries(handlers: map<nat, Handler>, handlers': map<nat, Handler>) {
    forall h | h in handlers ::
      && h in handlers' && handlers'[h].sid == handlers[h].sid
      && (Asked(handlers[h].phase) ==> Asked(handlers'[h].phase))
  }

  lemma CarriesWiring(handlers: map<nat, Handler>, handlers': map<nat, Handler>, d: Dispatch,
                      uplink: seq<Request>, tasks: map<nat, Task>, sent: seq<Message>)
    requires Carries(handlers, handlers')
    requires DispatchOk(d, handlers) && UplinkOk(handlers, uplink, tasks) && TasksOk(handlers, tasks, sent)
    ensures DispatchOk(d, handlers') && UplinkOk(handlers', uplink, tasks) && TasksOk(handlers', tasks, sent)
  {
  }

  lemma SessionsPut(sessions: map<string, nat>, handlers: map<nat, Handler>, h: nat, K: Handler)
    requires SessionsOk(sessions, handlers) && h in handlers && K.sid == handlers[h].sid
    requires K.phase.Gone? ==> handlers[h].phase.Gone?
    ensures SessionsOk(sessions, handlers[h := K])
  {
  }

  lemma HandlersPut(sessions: map<string, nat>, routed: seq<Message>, d: Dispatch,
    handlers: map<nat, Handler>, h: nat, K: Handler)
    requires HandlersOk(sessions, routed, d, handlers) && HandlerOk(sessions, routed, d, h, K)
    ensures HandlersOk(sessions, routed, d, handlers[h := K])
  {
  }

  lemma RefitOk(sessions: map<string, nat>, routed: seq<Message>, d: Dispatch, h: nat, H: Handler, K: Handler)
    requires HandlerOk(sessions, routed, d, h, H) && Refits(h, H, K)
    ensures HandlerOk(sessions, routed, d, h, K)
  {
  }

  /** Replacing one handler by a refit of it, with the rest of the wiring unchanged. */
  lemma PutKeeps(s: State, h: nat, K: Handler)
    requires Inv(s) && h in s.handlers && Refits(h, s.handlers[h], K)
    ensures Inv(Put(s, h, K)) && Carries(s.handlers, Put(s, h, K).handlers)
  {
    hide HandlerOk;
    RefitOk(s.sessions, s.routed, s.dispatch, h, s.handlers[h], K);
    HandlersPut(s.sessions, s.routed, s.dispatch, s.handlers, h, K);
    SessionsPut(s.sessions, s.handlers, h, K);
    CarriesWiring(s.handlers, s.handlers[h := K], s.dispatch, s.uplink, s.tasks, s.sent);
  }

  /** Pointing one id elsewhere costs other handlers nothing but their claim to completeness. */
  lemma HandlersRewired(sessions: map<string, nat>, sessions': map<string, nat>, routed: seq<Message>, d: Dispatch,
    handlers: map<nat, Handler>)
    requires HandlersOk(sessions, routed, d, handlers)
    requires forall h | h in handlers ::
               Lookup(sessions', handlers[h].sid) == Some(h) ==> Lookup(sessions, handlers[h].sid) == Some(h)
    ensures HandlersOk(sessions', routed, d, handlers)
  {
    forall h | h in handlers ensures HandlerOk(sessions', routed, d, h, handlers[h]) {
      assert HandlerOk(sessions, routed, d, h, handlers[h]);
    }
  }

  lemma OriginsKnown(handlers: map<nat, Handler>, tasks: map<nat, Task>, sent: seq<Message>,
    routed: seq<Message>, sid: string, h: nat)
    requires TasksOk(handlers, tasks, sent) && routed <= sent && h !in handlers
    ensures forall i | 0 <= i < |For(routed, sid)| :: For(routed, sid)[i].origin != h
  {
    ForMembers(routed, sid);
    forall i | 0 <= i < |For(routed, sid)| ensures For(routed, sid)[i].origin != h {
      var m := For(routed, sid)[i];
      assert m in sent;
      assert m.origin in tasks;
    }
  }

  function Newcomer(routed: seq<Message>, sid: string): Handler {
    Handler(sid, Registered, Buffer([], false, false), [], |For(routed, sid)|, [], [])
  }

  lemma NewcomerOk(sessions: map<string, nat>, routed: seq<Message>, d: Dispatch,
    handlers: map<nat, Handler>, h: nat, sid: string)
    requires DispatchOk(d, handlers) && h !in handlers
    requires forall i | 0 <= i < |For(routed, sid)| :: For(routed, sid)[i].origin != h
    ensures HandlerOk(sessions, routed, d, h, Newcomer(routed, sid))
  {
    assert Received(routed, Newcomer(routed, sid)) == [];
  }

  lemma SessionsRegister(sessions: map<string, nat>, handlers: map<nat, Handler>, h: nat, K: Handler)
    requires SessionsOk(sessions, handlers) && h !in handlers && !K.phase.Gone?
    ensures SessionsOk(sessions[K.sid := h], handlers[h := K])
  {
  }

  lemma HandlersRegister(sessions: map<string, nat>, routed: seq<Message>, d: Dispatch,
    handlers: map<nat, Handler>, h: nat, sid: string)
    requires HandlersOk(sessions, routed, d, handlers) && DispatchOk(d, handlers) && h !in handlers
    requires forall i | 0 <= i < |For(routed, sid)| :: For(routed, sid)[i].origin != h
    ensures HandlersOk(sessions[sid := h], routed, d, handlers[h := Newcomer(routed, sid)])
  {
    var sessions' := sessions[sid := h];
    HandlersRewired(sessions, sessions', routed, d, handlers);
    NewcomerOk(sessions', routed, d, handlers, h, sid);
    HandlersPut(sessions', routed, d, handlers, h, Newcomer(routed, sid));
  }

  lemma RegisterKeeps(s: State, h: nat, sid: string)
    requires Inv(s) && h !in s.handlers
    ensures Inv(Put(s, h, Newcomer(s.routed, sid)).(sessions := s.sessions[sid := h]))
  {
    hide HandlerOk;
    var K := Newcomer(s.routed, sid);
    OriginsKnown(s.handlers, s.tasks, s.sent, s.routed, sid, h);
    HandlersRegister(s.sessions, s.routed, s.dispatch, s.handlers, h, sid);
    SessionsRegister(s.sessions, s.handlers, h, K);
    CarriesWiring(s.handlers, s.handlers[h := K], s.dispatch, s.uplink, s.tasks, s.sent);
  }

  lemma SessionsErase(sessions: map<string, nat>, handlers: map<nat, Handler>, h: nat, K: Handler)
    requires SessionsOk(sessions, handlers) && h in handlers && K.sid == handlers[h].sid
    ensures SessionsOk(sessions - {K.sid}, handlers[h := K])
  {
  }

  lemma ErasedOk(sessions: map<string, nat>, routed: seq<Message>, d: Dispatch, handlers: map<nat, Handler>, h: nat)
    requires HandlersOk(sessions, routed, d, handlers) && h in handlers && handlers[h].phase.Leaving?
    ensures var H := handlers[h];
            && HandlersOk(sessions - {H.sid}, routed, d, handlers)
            && HandlerOk(sessions - {H.sid}, routed, d, h, H.(phase := Gone(H.phase.exit)))
  {
    HandlersRewired(sessions, sessions - {handlers[h].sid}, routed, d, handlers);
    assert HandlerOk(sessions - {handlers[h].sid}, routed, d, h, handlers[h]);
  }

  lemma EraseKeeps(s: State, h: nat)
    requires Inv(s) && h in s.handlers && s.handlers[h].phase.Leaving?
    ensures var H := s.handlers[h];
            Inv(Put(s, h, H.(phase := Gone(H.phase.exit))).(sessions := s.sessions - {H.sid}))
  {
    hide HandlerOk;
    var H := s.handlers[h];
    var K, sessions := H.(phase := Gone(H.phase.exit)), s.sessions - {H.sid};
    ErasedOk(s.sessions, s.routed, s.dispatch, s.handlers, h);
    HandlersPut(sessions, s.routed, s.dispatch, s.handlers, h, K);
    SessionsErase(s.sessions, s.handlers, h, K);
    CarriesWiring(s.handlers, s.handlers[h := K], s.dispatch, s.uplink, s.tasks, s.sent);
  }

  lemma PollKeeps(s: State, h: nat, isCancelled: bool)
    requires Inv(s) && h in s.handlers && s.handlers[h].phase.Consuming?
    ensures Inv(Put(s, h, Polled(s.handlers[h], isCancelled)))
  {
    assert HandlerOk(s.sessions, s.routed, s.dispatch, h, s.handlers[h]);
    PolledFits(h, s.handlers[h], isCancelled);
    PutKeeps(s, h, Polled(s.handlers[h], isCancelled));
  }

  lemma WriteKeeps(s: State, h: nat, ok: bool)
    requires Inv(s) && h in s.handlers && s.handlers[h].phase.Writing?
    ensures Inv(Put(s, h, Wrote(s.handlers[h], ok)))
  {
    assert HandlerOk(s.sessions, s.routed, s.dispatch, h, s.handlers[h]);
    WroteFits(h, s.handlers[h], ok);
    PutKeeps(s, h, Wrote(s.handlers[h], ok));
  }

  /** The steps before the consumer loop only move the handler along. */
  lemma EarlyUnwritten(sessions: map<string, nat>, routed: seq<Message>, d: Dispatch, h: nat, H: Handler)
    requires HandlerOk(sessions, routed, d, h, H)
    requires H.phase.Registered? || H.phase.Begun? || H.phase.SendFailed?
    ensures H.written == []
  {
  }

  lemma EarlyKeeps(s: State, h: nat, K: Handler)
    requires Inv(s) && h in s.handlers
    requires s.handlers[h].phase.Registered? || s.handlers[h].phase.Begun? || s.handlers[h].phase.SendFailed?
    requires K == s.handlers[h].(phase := K.phase, written := K.written)
    requires match K.phase
             case Begun | SendFailed | Consuming => K.written == []
             case Leaving(e) => e == NotReady && K.written <= [ErrorMessage(K.sid, h)]
             case _ => false
    ensures Inv(Put(s, h, K))
  {
    assert HandlerOk(s.sessions, s.routed, s.dispatch, h, s.handlers[h]);
    PutKeeps(s, h, K);
  }

  lemma SendKeeps(s: State, h: nat)
    requires Inv(s) && h in s.handlers && s.handlers[h].phase.Begun?
    ensures Inv(Step(s, Send(h, true)).value)
  {
    hide HandlerOk;
    var K := s.handlers[h].(phase := Consuming);
    EarlyUnwritten(s.sessions, s.routed, s.dispatch, h, s.handlers[h]);
    EarlyKeeps(s, h, K);
    UplinkAppend(s.handlers[h := K], s.uplink, s.tasks, Request(K.sid, h));
  }

  lemma UplinkAppend(handlers: map<nat, Handler>, uplink: seq<Request>, tasks: map<nat, Task>, r: Request)
    requires UplinkOk(handlers, uplink, tasks) && OnChannel(handlers, r.sid, r.origin) && r.origin !in tasks
    requires forall i | 0 <= i < |uplink| :: uplink[i].origin != r.origin
    ensures UplinkOk(handlers, uplink + [r], tasks)
  {
  }

  lemma HandlerStepKeeps(s: State, a: Action)
    requires Inv(s) && HandlerStep(s, a).Some?
    ensures Inv(HandlerStep(s, a).value)
  {
    hide HandlerOk;
    match a
    case Register(h, sid) => RegisterKeeps(s, h, sid);
    case Erase(h) => EraseKeeps(s, h);
    case Poll(h, isCancelled) => PollKeeps(s, h, isCancelled);
    case Write(h, ok) => WriteKeeps(s, h, ok);
    case Begin(h) =>
      EarlyUnwritten(s.sessions, s.routed, s.dispatch, h, s.handlers[h]);
      EarlyKeeps(s, h, s.handlers[h].(phase := Begun));
    case Send(h, ok) =>
      EarlyUnwritten(s.sessions, s.routed, s.dispatch, h, s.handlers[h]);
      if ok {
        SendKeeps(s, h);
      } else {
        EarlyKeeps(s, h, s.handlers[h].(phase := SendFailed));
      }
    case WriteError(h, ok) => EarlyKeeps(s, h, HandlerStep(s, a).value.handlers[h]);
  }

  // ---- server steps -----------------------------------------------------------------

  lemma TasksAccept(handlers: map<nat, Handler>, tasks: map<nat, Task>, sent: seq<Message>, r: Request, plan: Plan)
    requires TasksOk(handlers, tasks, sent) && OnChannel(handlers, r.sid, r.origin) && r.origin !in tasks
    ensures TasksOk(handlers, tasks[r.origin := Task(r.sid, plan, 0)], sent)
  {
    NoneByOrigin(sent, r.origin);
    assert StreamOf(r.sid, r.origin, plan)[..0] == [];
  }

  lemma UplinkAccept(handlers: map<nat, Handler>, uplink: seq<Request>, tasks: map<nat, Task>, T: Task)
    requires UplinkOk(handlers, uplink, tasks) && uplink != []
    ensures UplinkOk(handlers, uplink[1..], tasks[uplink[0].origin := T])
  {
  }

  lemma AcceptKeeps(s: State, plan: Plan)
    requires Inv(s) && s.uplink != []
    ensures Inv(ServerStep(s, Accept(plan)).value)
  {
    hide HandlerOk;
    UplinkAccept(s.handlers, s.uplink, s.tasks, Task(s.uplink[0].sid, plan, 0));
    TasksAccept(s.handlers, s.tasks, s.sent, s.uplink[0], plan);
  }

  lemma {:induction false} NoneByOrigin(ms: seq<Message>, h: nat)
    requires forall i | 0 <= i < |ms| :: ms[i].origin != h
    ensures ByOrigin(ms, h) == []
  {
    if ms != [] {
      NoneByOrigin(ms[..|ms| - 1], h);
    }
  }

  lemma TasksEmit(handlers: map<nat, Handler>, tasks: map<nat, Task>, sent: seq<Message>, t: nat)
    requires TasksOk(handlers, tasks, sent) && t in tasks && tasks[t].pos <= |tasks[t].plan.chunks|
    ensures var T := tasks[t];
            TasksOk(handlers, tasks[t := T.(pos := T.pos + 1)], sent + [StreamAt(T.sid, t, T.plan, T.pos)])
  {
    var T := tasks[t];
    var m, stream := StreamAt(T.sid, t, T.plan, T.pos), StreamOf(T.sid, t, T.plan);
    assert stream[..T.pos] + [m] == stream[..T.pos + 1];
    forall u | u in tasks ensures ByOrigin(sent + [m], u) == ByOrigin(sent, u) + (if u == t then [m] else []) {
      ByOriginSnoc(sent, m, u);
    }
  }

  lemma UplinkEmit(handlers: map<nat, Handler>, uplink: seq<Request>, tasks: map<nat, Task>, t: nat, T: Task)
    requires UplinkOk(handlers, uplink, tasks) && t in tasks
    ensures UplinkOk(handlers, uplink, tasks[t := T])
  {
  }

  lemma EmitKeeps(s: State, t: nat)
    requires Inv(s) && t in s.tasks && s.tasks[t].pos <= |s.tasks[t].plan.chunks|
    ensures Inv(ServerStep(s, Emit(t)).value)
  {
    hide HandlerOk;
    var T := s.tasks[t];
    TasksEmit(s.handlers, s.tasks, s.sent, t);
    UplinkEmit(s.handlers, s.uplink, s.tasks, t, T.(pos := T.pos + 1));
    var m := StreamAt(T.sid, t, T.plan, T.pos);
    assert s.sent + [m] == s.routed + (s.downlink + [m]);
  }

  // ---- client steps -----------------------------------------------------------------

  lemma ReceiveTracks(sessions: map<string, nat>, routed: seq<Message>, m: Message, h: nat, H: Handler)
    requires HandlerOk(sessions, routed, Ready, h, H)
    requires Lookup(sessions, m.sid) == Some(h) ==> m.sid == H.sid
    ensures HandlerOk(sessions, routed + [m], Found(Seen(m), Lookup(sessions, m.sid)), h, H)
  {
    hide Conserved, WrittenFits, For;
    ForSnoc(routed, m, H.sid);
    var was, now := For(routed, H.sid), For(routed + [m], H.sid);
    if m.sid == H.sid {
      assert now[H.base..] == was[H.base..] + [m];
      assert SeenAll(now[H.base..]) == SeenAll(was[H.base..]) + [Seen(m)];
    }
    assert was + [] == was && H.dispatched + [] == H.dispatched;
  }

  lemma ReceiveKeeps(s: State)
    requires Inv(s) && s.dispatch == Ready && s.downlink != []
    ensures Inv(ClientStep(s, Receive).value)
  {
    hide HandlerOk;
    var t := ClientStep(s, Receive).value;
    forall h | h in s.handlers ensures HandlerOk(t.sessions, t.routed, t.dispatch, h, t.handlers[h]) {
      assert HandlerOk(s.sessions, s.routed, s.dispatch, h, s.handlers[h]);
      ReceiveTracks(s.sessions, s.routed, s.downlink[0], h, s.handlers[h]);
    }
    assert s.routed + s.downlink == t.routed + t.downlink;
  }

  function AfterPush(m: Message): Dispatch {
    if m.done then Ending(m) else Ready
  }

  lemma BystanderOk(sessions: map<string, nat>, routed: seq<Message>, d: Dispatch, h: nat, H: Handler)
    requires HandlerOk(sessions, routed, d, h, H) && d.Found? && d.target != Some(h)
    ensures HandlerOk(sessions, routed, AfterPush(d.m), h, H)
  {
  }

  lemma PushedOk(sessions: map<string, nat>, routed: seq<Message>, d: Dispatch, h: nat, H: Handler)
    requires HandlerOk(sessions, routed, d, h, H) && d.Found? && d.target == Some(h)
    ensures HandlerOk(sessions, routed, AfterPush(d.m), h, Pushed(H, d.m))
  {
    assert H.consumed + (H.buf.chunks + [d.m]) == H.dispatched + [d.m];
    assert H.dispatched + [d.m] + [] == H.dispatched + [d.m];
    DonePushed(H.dispatched, d.m);
  }

  lemma DonePushed(ms: seq<Message>, m: Message)
    ensures HasDone(ms + [m]) <==> HasDone(ms) || m.done
  {
    if m.done {
      assert (ms + [m])[|ms|].done;
    }
    if HasDone(ms) {
      var i :| 0 <= i < |ms| && ms[i].done;
      assert (ms + [m])[i].done;
    }
  }

  lemma HandlersPush(sessions: map<string, nat>, routed: seq<Message>, d: Dispatch, handlers: map<nat, Handler>)
    requires HandlersOk(sessions, routed, d, handlers) && d.Found?
    ensures HandlersOk(sessions, routed, AfterPush(d.m), handlers - (if d.target.Some? then {d.target.value} else {}))
    ensures d.target.Some? && d.target.value in handlers ==>
              HandlerOk(sessions, routed, AfterPush(d.m), d.target.value, Pushed(handlers[d.target.value], d.m))
  {
    forall h | h in handlers && d.target != Some(h)
      ensures HandlerOk(sessions, routed, AfterPush(d.m), h, handlers[h]) {
      assert HandlerOk(sessions, routed, d, h, handlers[h]);
      BystanderOk(sessions, routed, d, h, handlers[h]);
    }
    if d.target.Some? && d.target.value in handlers {
      PushedOk(sessions, routed, d, d.target.value, handlers[d.target.value]);
    }
  }

  lemma PushKeeps(s: State)
    requires Inv(s) && s.dispatch.Found?
    ensures Inv(ClientStep(s, Push).value)
  {
    hide HandlerOk;
    var t, d := ClientStep(s, Push).value, s.dispatch;
    HandlersPush(s.sessions, s.routed, d, s.handlers);
    if d.target.Some? {
      var h := d.target.value;
      var K := Pushed(s.handlers[h], d.m);
      HandlersPut(s.sessions, s.routed, AfterPush(d.m), s.handlers - {h}, h, K);
      assert (s.handlers - {h})[h := K] == s.handlers[h := K];
      SessionsPut(s.sessions, s.handlers, h, K);
    } else {
      assert s.handlers - {} == s.handlers;
    }
    CarriesWiring(s.handlers, t.handlers, AfterPush(d.m), s.uplink, s.tasks, s.sent);
  }

  lemma EndKeeps(s: State)
    requires Inv(s) && s.dispatch.Ending?
    ensures Inv(ClientStep(s, End).value)
  {
    forall h | h in s.handlers ensures HandlerOk(s.sessions, s.routed, Ready, h, s.handlers[h]) {
      assert HandlerOk(s.sessions, s.routed, s.dispatch, h, s.handlers[h]);
    }
  }

  lemma StepKeeps(s: State, a: Action)
    requires Inv(s) && Step(s, a).Some?
    ensures Inv(Step(s, a).value)
  {
    hide HandlerOk;
    match a
    case Accept(plan) => AcceptKeeps(s, plan);
    case Emit(t) => EmitKeeps(s, t);
    case Receive => ReceiveKeeps(s);
    case Push => PushKeeps(s);
    case End => EndKeeps(s);
    case LoadTyping(on) =>
    case StoreTyping(i) =>
    case _ => HandlerStepKeeps(s, a);
  }

  /** The invariant holds after every run, over every interleaving. */
  lemma {:induction false} RunKeeps(actions: seq<Action>)
    ensures Run(actions).Some? ==> Inv(Run(actions).value)
  {
    if actions != [] {
      RunKeeps(actions[..|actions| - 1]);
      if Run(actions).Some? {
        StepKeeps(Run(actions[..|actions| - 1]).value, actions[|actions| - 1]);
      }
    }
  }
}
