/** The query/response protocol as a transition system: gRPC handlers, the session map and its
    chunk buffers, the client's receive thread, the control channel in both directions, the server's
    response tasks and the capture mode. One action is one lock region, one atomic access, one
    message, or one stretch between awaits; any interleaving of them is a run. */
module ResponseStream {
  import opened Arithmetic
  import opened CaptureMode
  import opened Options

  /** A response. `origin` is a history tag, the handler whose query it answers; no step reads it. */
  datatype Message = Message(sid: string, text: string, chunk: nat, done: bool, origin: nat)

  datatype Request = Request(sid: string, origin: nat)

  /** What the engine will yield for a query: chunks, and possibly an exception after them. */
  datatype Plan = Plan(chunks: seq<string>, failure: Option<string>)

  /** The server's task for one query, which has sent the first `pos` messages of its stream. */
  datatype Task = Task(sid: string, plan: Plan, pos: nat)

  predicate Unfinished(T: Task) {
    T.pos <= |T.plan.chunks|
  }

  datatype Buffer = Buffer(chunks: seq<Message>, finished: bool, cancelled: bool)

  datatype Exit = NotReady | AfterDone | Cancelled | WriteFailed | Drained

  datatype Phase =
    | Registered | Begun | SendFailed
    | Consuming | Writing(out: Message)
    | Leaving(exit: Exit) | Gone(exit: Exit)

  /** One `SubmitQuery` call. `written` is what its writer took. The last three fields are history:
      how many messages of this id the client had received before the call registered, what was
      pushed to the call's buffer, and what the call took out of it. */
  datatype Handler = Handler(
    sid: string, phase: Phase, buf: Buffer, written: seq<Message>,
    base: nat, dispatched: seq<Message>, consumed: seq<Message>)

  /** The receive thread: between messages, after the session lookup, or about to end the query. */
  datatype Dispatch = Ready | Found(m: Message, target: Option<nat>) | Ending(m: Message)

  /** `sent` and `routed` are the histories of both ends of the downlink; `begun`, `ended` and
      `failed` count mode locks, unlocks and failed sends. `armed` holds typing stores between load and store. */
  datatype State = State(
    sessions: map<string, nat>, handlers: map<nat, Handler>,
    uplink: seq<Request>, tasks: map<nat, Task>, downlink: seq<Message>, dispatch: Dispatch,
    mode: Mode, armed: seq<Mode>,
    sent: seq<Message>, routed: seq<Message>, begun: nat, ended: nat, failed: nat)

  const INIT := State(map[], map[], [], map[], [], Ready, Idle, [], [], [], 0, 0, 0)

  datatype Action =
    | Register(h: nat, sid: string) | Begin(h: nat) | Send(h: nat, ok: bool) | WriteError(h: nat, ok: bool)
    | Poll(h: nat, isCancelled: bool) | Write(h: nat, ok: bool) | Erase(h: nat)
    | Accept(plan: Plan) | Emit(task: nat)
    | Receive | Push | End
    | LoadTyping(on: bool) | StoreTyping(i: nat)

  // ---- the pieces of a step ---------------------------------------------------------

  function FinalText(plan: Plan): string {
    match plan.failure case None => "" case Some(e) => "[error] " + e
  }

  /** Message `i` of the stream for one query: the numbered chunks, then one closing message. */
  function StreamAt(sid: string, origin: nat, plan: Plan, i: nat): Message
    requires i <= |plan.chunks|
  {
    if i < |plan.chunks| then Message(sid, plan.chunks[i], i, false, origin)
    else Message(sid, FinalText(plan), i, true, origin)
  }

  function StreamOf(sid: string, origin: nat, plan: Plan): (r: seq<Message>)
    ensures |r| == |plan.chunks| + 1
  {
    seq(|plan.chunks| + 1, i requires 0 <= i <= |plan.chunks| => StreamAt(sid, origin, plan, i))
  }

  /** A response as the client reads it: the chunk index is cut to 32 bits. */
  function Seen(m: Message): Message {
    m.(chunk := m.chunk % TWO32)
  }

  function SeenAll(ms: seq<Message>): (r: seq<Message>)
    ensures |r| == |ms| && forall i | 0 <= i < |ms| :: r[i] == Seen(ms[i])
  {
    seq(|ms|, i requires 0 <= i < |ms| => Seen(ms[i]))
  }

  /** The messages for one session id. */
  function For(ms: seq<Message>, sid: string): seq<Message> {
    if ms == [] then []
    else For(ms[..|ms| - 1], sid) + (if ms[|ms| - 1].sid == sid then [ms[|ms| - 1]] else [])
  }

  /** The messages answering one handler's query. */
  function ByOrigin(ms: seq<Message>, h: nat): seq<Message> {
    if ms == [] then []
    else ByOrigin(ms[..|ms| - 1], h) + (if ms[|ms| - 1].origin == h then [ms[|ms| - 1]] else [])
  }

  function PushChunk(b: Buffer, m: Message): Buffer {
    Buffer(b.chunks + [m], b.finished || m.done, b.cancelled)
  }

  const NOT_READY := "[error] WebRTC channel not ready"

  function ErrorMessage(sid: string, h: nat): Message {
    Message(sid, NOT_READY, 0, true, h)
  }

  function Pushed(H: Handler, m: Message): Handler {
    H.(buf := PushChunk(H.buf, m), dispatched := H.dispatched + [m])
  }

  /** One pass of the consumer loop's lock region. */
  function Polled(H: Handler, isCancelled: bool): Handler {
    if isCancelled then H.(buf := H.buf.(cancelled := true), phase := Leaving(Cancelled))
    else if H.buf.chunks != [] then
      H.(buf := H.buf.(chunks := H.buf.chunks[1..]), phase := Writing(H.buf.chunks[0]),
         consumed := H.consumed + [H.buf.chunks[0]])
    else if H.buf.finished then H.(phase := Leaving(Drained))
    else H
  }

  function Wrote(H: Handler, ok: bool): Handler
    requires H.phase.Writing?
  {
    if !ok then H.(phase := Leaving(WriteFailed))
    else H.(written := H.written + [H.phase.out], phase := if H.phase.out.done then Leaving(AfterDone) else Consuming)
  }

  function Lookup(sessions: map<string, nat>, sid: string): Option<nat> {
    if sid in sessions then Some(sessions[sid]) else None
  }

  function Put(s: State, h: nat, H: Handler): State {
    s.(handlers := s.handlers[h := H])
  }

  predicate At(s: State, h: nat) {
    h in s.handlers
  }

  function HandlerStep(s: State, a: Action): Option<State> {
    match a
    case Register(h, sid) =>
      if h in s.handlers then None
      else Some(Put(s, h, Handler(sid, Registered, Buffer([], false, false), [], |For(s.routed, sid)|, [], []))
                .(sessions := s.sessions[sid := h]))
    case Begin(h) =>
      if At(s, h) && s.handlers[h].phase.Registered?
      then Some(Put(s, h, s.handlers[h].(phase := Begun)).(mode := Query, begun := s.begun + 1)) else None
    case Send(h, ok) =>
      if At(s, h) && s.handlers[h].phase.Begun? then
        if ok then
          Some(Put(s, h, s.handlers[h].(phase := Consuming)).(uplink := s.uplink + [Request(s.handlers[h].sid, h)]))
        else Some(Put(s, h, s.handlers[h].(phase := SendFailed)).(failed := s.failed + 1))
      else None
    case WriteError(h, ok) =>
      if At(s, h) && s.handlers[h].phase.SendFailed? then
        var H := s.handlers[h];
        Some(Put(s, h, H.(phase := Leaving(NotReady), written := if ok then [ErrorMessage(H.sid, h)] else [])))
      else None
    case Poll(h, isCancelled) =>
      if At(s, h) && s.handlers[h].phase.Consuming? then Some(Put(s, h, Polled(s.handlers[h], isCancelled))) else None
    case Write(h, ok) =>
      if At(s, h) && s.handlers[h].phase.Writing? then Some(Put(s, h, Wrote(s.handlers[h], ok))) else None
    case Erase(h) =>
      if At(s, h) && s.handlers[h].phase.Leaving? then
        var H := s.handlers[h];
        Some(Put(s, h, H.(phase := Gone(H.phase.exit))).(sessions := s.sessions - {H.sid}))
      else None
    case _ => None
  }

  function ServerStep(s: State, a: Action): Option<State> {
    match a
    case Accept(plan) =>
      if s.uplink == [] then None
      else Some(s.(uplink := s.uplink[1..], tasks := s.tasks[s.uplink[0].origin := Task(s.uplink[0].sid, plan, 0)]))
    case Emit(t) =>
      if t in s.tasks && s.tasks[t].pos <= |s.tasks[t].plan.chunks| then
        var m := StreamAt(s.tasks[t].sid, t, s.tasks[t].plan, s.tasks[t].pos);
        Some(s.(tasks := s.tasks[t := s.tasks[t].(pos := s.tasks[t].pos + 1)],
                downlink := s.downlink + [m], sent := s.sent + [m]))
      else None
    case _ => None
  }

  function ClientStep(s: State, a: Action): Option<State> {
    match a
    case Receive =>
      if s.dispatch != Ready || s.downlink == [] then None
      else
        var m := s.downlink[0];
        Some(s.(downlink := s.downlink[1..], routed := s.routed + [m],
                dispatch := Found(Seen(m), Lookup(s.sessions, m.sid))))
    case Push =>
      if !s.dispatch.Found? then None
      else
        var m, next := s.dispatch.m, s.(dispatch := if s.dispatch.m.done then Ending(s.dispatch.m) else Ready);
        if s.dispatch.target.Some? && At(s, s.dispatch.target.value)
        then Some(Put(next, s.dispatch.target.value, Pushed(s.handlers[s.dispatch.target.value], m)))
        else Some(next)
    case End =>
      if s.dispatch.Ending? then Some(s.(dispatch := Ready, mode := Idle, ended := s.ended + 1)) else None
    case LoadTyping(on) =>
      Some(match TypingStore(s.mode, on) case NoStore => s case Store(m) => s.(armed := s.armed + [m]))
    case StoreTyping(i) =>
      if i < |s.armed| then Some(s.(mode := s.armed[i], armed := s.armed[..i] + s.armed[i + 1..])) else None
    case _ => None
  }

  function Step(s: State, a: Action): Option<State> {
    match HandlerStep(s, a)
    case Some(t) => Some(t)
    case None =>
      match ServerStep(s, a)
      case Some(t) => Some(t)
      case None => ClientStep(s, a)
  }

  function Run(actions: seq<Action>): Option<State> {
    if actions == [] then Some(INIT)
    else match Run(actions[..|actions| - 1])
         case None => None
         case Some(s) => Step(s, actions[|actions| - 1])
  }

  // ---- sequence facts ---------------------------------------------------------------

  lemma ForSnoc(ms: seq<Message>, m: Message, sid: string)
    ensures For(ms + [m], sid) == For(ms, sid) + (if m.sid == sid then [m] else [])
  {
    assert (ms + [m])[..|ms|] == ms;
  }

  lemma ByOriginSnoc(ms: seq<Message>, m: Message, h: nat)
    ensures ByOrigin(ms + [m], h) == ByOrigin(ms, h) + (if m.origin == h then [m] else [])
  {
    assert (ms + [m])[..|ms|] == ms;
  }

  lemma {:induction false} ForConcat(a: seq<Message>, b: seq<Message>, sid: string)
    ensures For(a + b, sid) == For(a, sid) + For(b, sid)
  {
    if b == [] {
      assert a + b == a;
    } else {
      ForConcat(a, b[..|b| - 1], sid);
      ForSnoc(a + b[..|b| - 1], b[|b| - 1], sid);
      assert a + b == a + b[..|b| - 1] + [b[|b| - 1]];
    }
  }

  lemma {:induction false} ForMembers(ms: seq<Message>, sid: string)
    ensures forall i | 0 <= i < |For(ms, sid)| :: For(ms, sid)[i] in ms && For(ms, sid)[i].sid == sid
  {
    if ms != [] {
      ForMembers(ms[..|ms| - 1], sid);
      assert forall m :: m in ms[..|ms| - 1] ==> m in ms;
      assert ms[|ms| - 1] in ms;
    }
  }

  lemma SeenPrefix(a: seq<Message>, b: seq<Message>)
    requires a <= b
    ensures SeenAll(a) <= SeenAll(b)
  {
  }

  lemma PrefixTransitive(a: seq<Message>, b: seq<Message>, c: seq<Message>)
    requires a <= b && b <= c
    ensures a <= c
  {
  }
}
