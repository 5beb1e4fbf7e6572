/** When a call that left through `done` has been given the stream of its own query: the exact
    condition on the moment it registers its id, and what the caller can do to meet it. */
module OwnStream {
  import opened Options
  import opened ResponseStream
  import opened StreamProofs
  import opened StreamTheorems
  import Engine = VlmEngine

  // ---- continuations ----------------------------------------------------------------

  /** The run `more`, continued from `s`. */
  function RunFrom(s: State, more: seq<Action>): Option<State> {
    if more == [] then Some(s)
    else match RunFrom(s, more[..|more| - 1])
         case None => None
         case Some(t) => Step(t, more[|more| - 1])
  }

  /** A run followed by a continuation of it is a run. */
  lemma {:induction false} RunContinues(before: seq<Action>, r: State, more: seq<Action>)
    requires Reaches(before, r)
    ensures Run(before + more) == RunFrom(r, more)
  {
    hide Step;
    if more == [] {
      assert before + more == before;
    } else {
      RunContinues(before, r, more[..|more| - 1]);
      assert (before + more)[..|before + more| - 1] == before + more[..|more| - 1];
    }
  }

  // ---- silence ----------------------------------------------------------------------

  predicate AboutToAsk(phase: Phase) {
    phase.Registered? || phase.Begun?
  }

  /** For this id nothing is on its way, in any form, but what belongs to call `own`. */
  ghost predicate QuietBut(s: State, sid: string, own: Option<nat>) {
    && (forall g | g in s.handlers && s.handlers[g].sid == sid && AboutToAsk(s.handlers[g].phase) :: own == Some(g))
    && (forall i | 0 <= i < |s.uplink| && s.uplink[i].sid == sid :: own == Some(s.uplink[i].origin))
    && (forall t | t in s.tasks && s.tasks[t].sid == sid && Unfinished(s.tasks[t]) :: own == Some(t))
    && (forall i | 0 <= i < |s.downlink| && s.downlink[i].sid == sid :: own == Some(s.downlink[i].origin))
  }

  /** No call is about to ask under this id, and no request, running task or response for it is under way. */
  ghost predicate Silent(s: State, sid: string) {
    QuietBut(s, sid, None)
  }

  lemma QuietHandlers(s: State, a: Action, sid: string, own: Option<nat>)
    requires QuietBut(s, sid, own) && HandlerStep(s, a).Some?
    requires a.Register? && a.sid == sid ==> own == Some(a.h)
    ensures QuietBut(HandlerStep(s, a).value, sid, own)
  {
    hide For;
  }

  lemma QuietServer(s: State, a: Action, sid: string, own: Option<nat>)
    requires QuietBut(s, sid, own) && ServerStep(s, a).Some?
    ensures QuietBut(ServerStep(s, a).value, sid, own)
  {
  }

  lemma QuietClient(s: State, a: Action, sid: string, own: Option<nat>)
    requires DispatchOk(s.dispatch, s.handlers) && QuietBut(s, sid, own) && ClientStep(s, a).Some?
    ensures QuietBut(ClientStep(s, a).value, sid, own)
  {
    hide DispatchOk;
    if a.Receive? {
      var t := ClientStep(s, a).value;
      assert forall i | 0 <= i < |t.downlink| :: t.downlink[i] == s.downlink[i + 1];
    }
  }

  /** Only a new registration of the id can bring anything else under way. */
  lemma QuietStep(s: State, a: Action, sid: string, own: Option<nat>)
    requires Inv(s) && QuietBut(s, sid, own) && Step(s, a).Some?
    requires a.Register? && a.sid == sid ==> own == Some(a.h)
    ensures QuietBut(Step(s, a).value, sid, own)
  {
    assert DispatchOk(s.dispatch, s.handlers);
    hide Inv, QuietBut, DispatchOk, HandlerStep, ServerStep, ClientStep;
    if HandlerStep(s, a).Some? {
      QuietHandlers(s, a, sid, own);
    } else if ServerStep(s, a).Some? {
      QuietServer(s, a, sid, own);
    } else {
      QuietClient(s, a, sid, own);
    }
  }

  // ---- what belongs to one call -----------------------------------------------------

  /** Everything the call's buffer was given or is about to be given. */
  function InHand(s: State, h: nat): seq<Message>
    requires h in s.handlers
  {
    s.handlers[h].dispatched + Pending(s.dispatch, h)
  }

  /** The id leads to the call. */
  predicate Leads(s: State, h: nat)
    requires h in s.handlers
  {
    Lookup(s.sessions, s.handlers[h].sid) == Some(h)
  }

  /** All that was sent for the id since the call registered answers the call's own query. */
  ghost predicate SentOwn(s: State, h: nat)
    requires h in s.handlers
  {
    var H := s.handlers[h];
    H.base <= |For(s.sent, H.sid)| && For(s.sent, H.sid)[H.base..] == ByOrigin(s.sent, h)
  }

  /** What the call has been given is a beginning of its own query's stream, and while the id leads to
      it nothing else is under way. */
  ghost predicate Own(s: State, h: nat) {
    && h in s.handlers
    && InHand(s, h) <= SeenAll(ByOrigin(s.sent, h))
    && (Leads(s, h) ==> QuietBut(s, s.handlers[h].sid, Some(h)) && SentOwn(s, h))
  }

  lemma {:induction false} ForNone(ms: seq<Message>, sid: string)
    ensures For(ms, sid) == [] <==> forall i | 0 <= i < |ms| :: ms[i].sid != sid
  {
    if ms != [] {
      var init := ms[..|ms| - 1];
      ForNone(init, sid);
      assert forall i | 0 <= i < |init| :: init[i] == ms[i];
    }
  }

  lemma NobodysMessages(s: State, h: nat)
    requires Inv(s) && h !in s.handlers
    ensures ByOrigin(s.sent, h) == [] && Pending(s.dispatch, h) == []
  {
    assert forall i | 0 <= i < |s.sent| :: s.sent[i].origin in s.tasks;
    assert forall t | t in s.tasks :: t in s.handlers;
    NoneByOrigin(s.sent, h);
  }

  /** A call that registers a silent id starts with a clean slate. */
  lemma OwnStart(r: State, h: nat, sid: string)
    requires Inv(r) && h !in r.handlers && Silent(r, sid)
    ensures Own(Step(r, Register(h, sid)).value, h)
  {
    var s := Step(r, Register(h, sid)).value;
    QuietHandlers(r, Register(h, sid), sid, Some(h)) by {
      assert QuietBut(r, sid, Some(h));
    }
    NobodysMessages(r, h);
    ForNone(r.downlink, sid);
    ForConcat(r.routed, r.downlink, sid);
    assert For(r.routed, sid) + [] == For(r.routed, sid);
  }

  /** While the id leads to the call and all sent for it is the call's own, so is all it was given. */
  lemma LeadsToPrefix(s: State, h: nat)
    requires Inv(s) && h in s.handlers && Leads(s, h) && SentOwn(s, h)
    ensures InHand(s, h) <= SeenAll(ByOrigin(s.sent, h))
  {
    var H := s.handlers[h];
    assert HandlerOk(s.sessions, s.routed, s.dispatch, h, H);
    ForConcat(s.routed, s.downlink, H.sid);
    var routed, sent := For(s.routed, H.sid), For(s.sent, H.sid);
    assert routed[H.base..] <= sent[H.base..];
    SeenPrefix(routed[H.base..], sent[H.base..]);
  }

  /** A step leaves the call its identity and never gives the id back to it. */
  lemma Identity(s: State, a: Action, h: nat)
    requires Step(s, a).Some? && h in s.handlers
    ensures var t := Step(s, a).value;
            h in t.handlers && t.handlers[h].sid == s.handlers[h].sid && t.handlers[h].base == s.handlers[h].base
            && (Leads(t, h) ==> Leads(s, h) && !(a.Register? && a.sid == s.handlers[h].sid))
  {
    hide For;
  }

  lemma HandlersInHand(s: State, a: Action, h: nat)
    requires HandlerStep(s, a).Some? && h in s.handlers
    ensures h in HandlerStep(s, a).value.handlers && InHand(HandlerStep(s, a).value, h) == InHand(s, h)
    ensures HandlerStep(s, a).value.sent == s.sent
  {
    hide For, Pending;
  }

  lemma ServerInHand(s: State, a: Action, h: nat)
    requires ServerStep(s, a).Some? && h in s.handlers
    ensures h in ServerStep(s, a).value.handlers && InHand(ServerStep(s, a).value, h) == InHand(s, h)
    ensures !a.Emit? ==> ServerStep(s, a).value.sent == s.sent
  {
  }

  lemma ClientInHand(s: State, a: Action, h: nat)
    requires SessionsOk(s.sessions, s.handlers) && ClientStep(s, a).Some? && h in s.handlers
    ensures h in ClientStep(s, a).value.handlers && ClientStep(s, a).value.sent == s.sent
    ensures !Leads(s, h) ==> InHand(ClientStep(s, a).value, h) == InHand(s, h)
  {
    var t, H := ClientStep(s, a).value, s.handlers[h];
    assert H.dispatched + [] == H.dispatched;
    if a.Receive? && !Leads(s, h) {
      assert t.dispatch.target != Some(h);
    }
  }

  /** A call its id does not lead to is given nothing more, and only an emission adds to what was sent. */
  lemma StepInHand(s: State, a: Action, h: nat)
    requires Inv(s) && Step(s, a).Some? && h in s.handlers
    ensures h in Step(s, a).value.handlers && (!Leads(s, h) ==> InHand(Step(s, a).value, h) == InHand(s, h))
    ensures a.Register? || a.Erase? ==> InHand(Step(s, a).value, h) == InHand(s, h)
    ensures !a.Emit? ==> Step(s, a).value.sent == s.sent
  {
    assert SessionsOk(s.sessions, s.handlers);
    hide Inv, SessionsOk, HandlerStep, ServerStep, ClientStep, InHand;
    if HandlerStep(s, a).Some? {
      HandlersInHand(s, a, h);
    } else if ServerStep(s, a).Some? {
      ServerInHand(s, a, h);
    } else {
      ClientInHand(s, a, h);
      assert !(a.Register? || a.Erase?) by {
        ClientActions(s, a);
      }
    }
  }

  lemma ClientActions(s: State, a: Action)
    requires ClientStep(s, a).Some?
    ensures !a.Register? && !a.Erase? && !a.Emit?
  {
  }

  lemma EmitGrows(s: State, k: nat, h: nat, sid: string)
    requires Step(s, Emit(k)).Some?
    ensures k in s.tasks && Unfinished(s.tasks[k]) && Step(s, Emit(k)).value.handlers == s.handlers
    ensures var T := s.tasks[k];
            var m := StreamAt(T.sid, k, T.plan, T.pos);
            && Step(s, Emit(k)).value.sent == s.sent + [m]
            && ByOrigin(s.sent + [m], h) == ByOrigin(s.sent, h) + (if k == h then [m] else [])
            && For(s.sent + [m], sid) == For(s.sent, sid) + (if T.sid == sid then [m] else [])
  {
    var T := s.tasks[k];
    var m := StreamAt(T.sid, k, T.plan, T.pos);
    ForSnoc(s.sent, m, sid);
    ByOriginSnoc(s.sent, m, h);
  }

  lemma SentGrows(s: State, a: Action, h: nat)
    requires Inv(s) && Step(s, a).Some? && h in s.handlers
    ensures SeenAll(ByOrigin(s.sent, h)) <= SeenAll(ByOrigin(Step(s, a).value.sent, h))
  {
    hide Inv, Step;
    StepInHand(s, a, h);
    if a.Emit? {
      EmitGrows(s, a.task, h, "");
    }
    SeenPrefix(ByOrigin(s.sent, h), ByOrigin(Step(s, a).value.sent, h));
  }

  lemma OwnTask(s: State, k: nat, h: nat)
    requires Inv(s) && h in s.handlers && k in s.tasks && Unfinished(s.tasks[k])
    requires QuietBut(s, s.handlers[h].sid, Some(h))
    ensures s.tasks[k].sid == s.handlers[h].sid <==> k == h
  {
  }

  lemma SentOwnStep(s: State, a: Action, h: nat)
    requires Inv(s) && h in s.handlers && SentOwn(s, h) && Step(s, a).Some?
    requires QuietBut(s, s.handlers[h].sid, Some(h))
    ensures h in Step(s, a).value.handlers && SentOwn(Step(s, a).value, h)
  {
    hide Inv, Step, QuietBut, For, ByOrigin, StreamAt;
    StepInHand(s, a, h);
    Identity(s, a, h);
    if a.Emit? {
      var sid, from := s.handlers[h].sid, s.handlers[h].base;
      EmitGrows(s, a.task, h, sid);
      OwnTask(s, a.task, h);
      var was, now := For(s.sent, sid), For(Step(s, a).value.sent, sid);
      assert now[from..] == was[from..] + now[|was|..];
    }
  }

  /** Whatever happens next, to this call or any other, what was its own stays its own. */
  lemma OwnStep(s: State, a: Action, h: nat)
    requires Inv(s) && Own(s, h) && Step(s, a).Some?
    ensures Own(Step(s, a).value, h)
  {
    hide Inv, Step, QuietBut, SentOwn, InHand, Leads;
    var t := Step(s, a).value;
    StepKeeps(s, a);
    Identity(s, a, h);
    if Leads(t, h) {
      QuietStep(s, a, s.handlers[h].sid, Some(h));
      SentOwnStep(s, a, h);
      LeadsToPrefix(t, h);
    } else {
      SentGrows(s, a, h);
      StepInHand(s, a, h);
      if Leads(s, h) {
        LosesLead(s, a, h);
      }
      PrefixTransitive(InHand(s, h), SeenAll(ByOrigin(s.sent, h)), SeenAll(ByOrigin(t.sent, h)));
    }
  }

  lemma LosesLead(s: State, a: Action, h: nat)
    requires Step(s, a).Some? && h in s.handlers && Leads(s, h)
    requires h in Step(s, a).value.handlers && !Leads(Step(s, a).value, h)
    ensures a.Register? || a.Erase?
  {
    if !a.Register? && !a.Erase? {
      SessionsStay(s, a);
    }
  }

  lemma {:induction false} OwnRun(s: State, more: seq<Action>, h: nat)
    requires Inv(s) && Own(s, h) && RunFrom(s, more).Some?
    ensures Inv(RunFrom(s, more).value) && Own(RunFrom(s, more).value, h)
  {
    hide Inv, Own, Step;
    if more != [] {
      var init := more[..|more| - 1];
      OwnRun(s, init, h);
      StepKeeps(RunFrom(s, init).value, more[|more| - 1]);
      OwnStep(RunFrom(s, init).value, more[|more| - 1], h);
    }
  }

  // ---- leaving through done ---------------------------------------------------------

  predicate LeftThroughDone(H: Handler) {
    H.phase == Leaving(AfterDone) || H.phase == Gone(AfterDone)
  }

  /** If the call left through `done`, it wrote the whole stream of its own query. */
  ghost predicate OwnIfDone(s: State, h: nat) {
    h in s.handlers && LeftThroughDone(s.handlers[h]) ==>
      && h in s.tasks && s.tasks[h].sid == s.handlers[h].sid && !Unfinished(s.tasks[h])
      && s.handlers[h].written == SeenAll(StreamOf(s.handlers[h].sid, h, s.tasks[h].plan))
  }

  lemma DoneWrote(h: nat, H: Handler)
    requires Conserved(H) && WrittenFits(h, H) && LeftThroughDone(H)
    ensures H.written <= H.dispatched && H.written != [] && H.written[|H.written| - 1].done
  {
  }

  lemma OwnEnds(s: State, h: nat)
    requires Inv(s) && Own(s, h)
    ensures OwnIfDone(s, h)
    ensures LeftThroughDone(s.handlers[h]) ==> |InHand(s, h)| == |ByOrigin(s.sent, h)|
  {
    var H := s.handlers[h];
    if LeftThroughDone(H) {
      assert HandlerOk(s.sessions, s.routed, s.dispatch, h, H) && TasksOk(s.handlers, s.tasks, s.sent);
      hide Inv, QuietBut, For, ByOrigin;
      DoneWrote(h, H);
      hide HandlerOk, Conserved, WrittenFits;
      PrefixTransitive(H.written, InHand(s, h), SeenAll(ByOrigin(s.sent, h)));
      if h !in s.tasks {
        NoneByOrigin(s.sent, h);
        assert false;
      }
      var T := s.tasks[h];
      hide TasksOk;
      StreamEndsOnce(H.sid, h, T.plan, T.pos, H.written);
    }
  }

  lemma DownlinkTasks(s: State, i: nat)
    requires Inv(s) && i < |s.downlink|
    ensures s.downlink[i].origin in s.tasks
  {
    assert s.sent[|s.routed| + i] == s.downlink[i];
  }

  lemma RefusedSilent(s: State, h: nat)
    requires Inv(s) && h in s.handlers && QuietBut(s, s.handlers[h].sid, Some(h)) && Refused(s.handlers[h])
    ensures Silent(s, s.handlers[h].sid)
  {
    assert UplinkOk(s.handlers, s.uplink, s.tasks);
    assert h !in s.tasks;
    forall i | 0 <= i < |s.downlink| ensures s.downlink[i].origin != h {
      DownlinkTasks(s, i);
    }
    hide Inv;
  }

  lemma DoneSilent(s: State, h: nat)
    requires Inv(s) && h in s.handlers && QuietBut(s, s.handlers[h].sid, Some(h))
    requires LeftThroughDone(s.handlers[h]) && h in s.tasks && !Unfinished(s.tasks[h])
    requires forall i | 0 <= i < |s.downlink| :: s.downlink[i].sid != s.handlers[h].sid
    ensures Silent(s, s.handlers[h].sid)
  {
    assert UplinkOk(s.handlers, s.uplink, s.tasks);
    hide Inv;
  }

  /** Once a call its id leads to has left through `done` or was refused, nothing is under way for the id. */
  lemma LeftSilent(s: State, h: nat)
    requires Inv(s) && Own(s, h) && Leads(s, h)
    requires LeftThroughDone(s.handlers[h]) || Refused(s.handlers[h])
    ensures Silent(s, s.handlers[h].sid)
  {
    OwnEnds(s, h);
    hide Inv, QuietBut, InHand, SentOwn, Silent;
    if LeftThroughDone(s.handlers[h]) {
      NothingLeft(s, h);
      DoneSilent(s, h);
    } else {
      RefusedSilent(s, h);
    }
  }

  lemma NothingLeft(s: State, h: nat)
    requires Inv(s) && Own(s, h) && Leads(s, h) && |InHand(s, h)| == |ByOrigin(s.sent, h)|
    ensures forall i | 0 <= i < |s.downlink| :: s.downlink[i].sid != s.handlers[h].sid
  {
    var H := s.handlers[h];
    assert HandlerOk(s.sessions, s.routed, s.dispatch, h, H);
    ForConcat(s.routed, s.downlink, H.sid);
    ForNone(s.downlink, H.sid);
  }

  // ---- the caller's side ------------------------------------------------------------

  /** Every call that ever used the id and is gone left through `done` or was refused. */
  ghost predicate AllHeardOut(s: State, sid: string) {
    forall g | g in s.handlers && s.handlers[g].sid == sid && s.handlers[g].phase.Gone? ::
      s.handlers[g].phase.exit == AfterDone || s.handlers[g].phase.exit == NotReady
  }

  /** An id whose calls have all been heard out is silent while it leads nowhere, and otherwise what is
      under way for it belongs to the call it leads to. */
  ghost predicate Tidy(s: State, sid: string) {
    AllHeardOut(s, sid) ==>
      match Lookup(s.sessions, sid)
      case None => Silent(s, sid)
      case Some(h) => Own(s, h)
  }

  lemma HeardOutBefore(s: State, a: Action, sid: string)
    requires Step(s, a).Some? && AllHeardOut(Step(s, a).value, sid)
    ensures AllHeardOut(s, sid)
  {
    hide For;
    var t := Step(s, a).value;
    forall g | g in s.handlers && s.handlers[g].sid == sid && s.handlers[g].phase.Gone?
      ensures s.handlers[g].phase.exit == AfterDone || s.handlers[g].phase.exit == NotReady
    {
      assert g in t.handlers && t.handlers[g].sid == sid && t.handlers[g].phase == s.handlers[g].phase;
    }
  }

  /** How the entry of an id changes: by a registration of the id, or by the erasure of a call with it. */
  lemma EntryStep(s: State, a: Action, sid: string)
    requires Step(s, a).Some? && Lookup(Step(s, a).value.sessions, sid) != Lookup(s.sessions, sid)
    ensures a.Register? || a.Erase?
    ensures a.Register? ==> a.sid == sid && a.h !in s.handlers && Lookup(Step(s, a).value.sessions, sid) == Some(a.h)
    ensures a.Erase? ==>
              && a.h in s.handlers && s.handlers[a.h].sid == sid && s.handlers[a.h].phase.Leaving?
              && Lookup(Step(s, a).value.sessions, sid) == None && a.h in Step(s, a).value.handlers
              && Step(s, a).value.handlers[a.h].sid == sid
              && Step(s, a).value.handlers[a.h].phase == Gone(s.handlers[a.h].phase.exit)
  {
    hide For;
    if !a.Register? && !a.Erase? {
      SessionsStay(s, a);
    }
  }

  lemma Registers(s: State, a: Action)
    requires Step(s, a).Some? && a.Register?
    ensures Lookup(Step(s, a).value.sessions, a.sid) == Some(a.h)
  {
  }

  lemma ErasedSilent(s: State, h: nat, sid: string)
    requires Inv(s) && Own(s, h) && Leads(s, h) && s.handlers[h].sid == sid && Step(s, Erase(h)).Some?
    requires s.handlers[h].phase.Leaving? && h in Step(s, Erase(h)).value.handlers
    requires Step(s, Erase(h)).value.handlers[h].sid == sid
    requires Step(s, Erase(h)).value.handlers[h].phase == Gone(s.handlers[h].phase.exit)
    requires AllHeardOut(Step(s, Erase(h)).value, sid)
    ensures Silent(Step(s, Erase(h)).value, sid)
  {
    hide Inv, Step, Own, QuietBut;
    LeftSilent(s, h);
    QuietStep(s, Erase(h), sid, None);
  }

  lemma TidyStep(s: State, a: Action, sid: string)
    requires Inv(s) && Attached(s) && Tidy(s, sid) && Step(s, a).Some?
    requires a.Register? ==> a.sid !in s.sessions
    ensures Tidy(Step(s, a).value, sid)
  {
    var t := Step(s, a).value;
    hide Inv, Step, AllHeardOut, Own, QuietBut;
    if AllHeardOut(t, sid) {
      HeardOutBefore(s, a, sid);
      if a.Register? {
        Registers(s, a);
      }
      if Lookup(t.sessions, sid) != Lookup(s.sessions, sid) {
        EntryStep(s, a, sid);
        if a.Register? {
          OwnStart(s, a.h, sid);
        } else {
          ErasedSilent(s, a.h, sid);
        }
      } else if sid in s.sessions {
        OwnStep(s, a, s.sessions[sid]);
      } else {
        QuietStep(s, a, sid, None);
      }
    }
  }

  lemma {:induction false} TidyRun(actions: seq<Action>, sid: string)
    requires Run(actions).Some? && DistinctLiveIds(actions)
    ensures Tidy(Run(actions).value, sid)
  {
    hide Inv, Step, Tidy, Attached;
    if actions == [] {
      assert Tidy(INIT, sid) by {
        TidyInit(sid);
      }
    } else {
      var init := actions[..|actions| - 1];
      DistinctBefore(actions);
      TidyRun(init, sid);
      RunKeeps(init);
      DistinctStayAttached(init);
      TidyStep(Run(init).value, actions[|actions| - 1], sid);
    }
  }

  lemma TidyInit(sid: string)
    ensures Tidy(INIT, sid)
  {
  }

  lemma DistinctBefore(actions: seq<Action>)
    requires actions != [] && DistinctLiveIds(actions)
    ensures DistinctLiveIds(actions[..|actions| - 1])
  {
    hide Run;
    var init := actions[..|actions| - 1];
    forall i | 0 <= i < |init| ensures init[..i] == actions[..i] && init[i] == actions[i] {
    }
  }

  /** What callers can do about it: where ids in use at the same time are distinct, and every earlier call
      with this id left through `done` or was refused, an id that is free is silent. */
  lemma HeardOutIsSilent(actions: seq<Action>, r: State, sid: string)
    requires Reaches(actions, r) && DistinctLiveIds(actions) && sid !in r.sessions && AllHeardOut(r, sid)
    ensures Silent(r, sid)
  {
    TidyRun(actions, sid);
  }

  // ---- a stream that is still to come -----------------------------------------------

  ghost predicate CanReach(from: State, s: State) {
    exists more :: RunFrom(from, more) == Some(s)
  }

  lemma CanStay(s: State)
    ensures CanReach(s, s)
  {
    assert RunFrom(s, []) == Some(s);
  }

  lemma CanGo(from: State, s: State, a: Action)
    requires CanReach(from, s) && Step(s, a).Some?
    ensures CanReach(from, Step(s, a).value)
  {
    hide Step;
    var more :| RunFrom(from, more) == Some(s);
    assert (more + [a])[..|more|] == more;
    assert RunFrom(from, more + [a]) == Step(s, a);
  }

  /** Call `h` has registered and not asked yet, its id leads to it, and the state can be reached. */
  ghost predicate Waits(from: State, s: State, h: nat, sid: string) {
    && CanReach(from, s) && Inv(s)
    && h in s.handlers && s.handlers[h].sid == sid && s.handlers[h].phase.Registered?
    && Lookup(s.sessions, sid) == Some(h)
  }

  predicate OthersMove(a: Action, h: nat) {
    match a
    case Begin(g) => g != h
    case Send(_, _) | Accept(_) | Emit(_) | Receive | Push | End => true
    case _ => false
  }

  lemma StillRegistered(s: State, a: Action, h: nat)
    requires Step(s, a).Some? && OthersMove(a, h) && h in s.handlers && s.handlers[h].phase.Registered?
    ensures var t := Step(s, a).value;
            && h in t.handlers && t.handlers[h].phase.Registered? && t.handlers[h].sid == s.handlers[h].sid
            && t.sessions == s.sessions
  {
    SessionsStay(s, a);
  }

  lemma Go(from: State, s: State, a: Action, h: nat, sid: string)
    requires Waits(from, s, h, sid) && Step(s, a).Some? && OthersMove(a, h)
    ensures Waits(from, Step(s, a).value, h, sid)
  {
    hide Inv, Step, CanReach, OthersMove;
    StepKeeps(s, a);
    CanGo(from, s, a);
    StillRegistered(s, a, h);
  }

  /** A call about to ask asks. */
  lemma Asks(from: State, s: State, g: nat, h: nat, sid: string) returns (t: State)
    requires Waits(from, s, h, sid)
    requires g != h && g in s.handlers && s.handlers[g].sid == sid && AboutToAsk(s.handlers[g].phase)
    ensures Waits(from, t, h, sid) && exists i | 0 <= i < |t.uplink| :: t.uplink[i].sid == sid
  {
    hide Inv, CanReach;
    t := s;
    if t.handlers[g].phase.Registered? {
      Go(from, t, Begin(g), h, sid);
      t := Step(t, Begin(g)).value;
    }
    var before := t;
    Go(from, t, Send(g, true), h, sid);
    t := Step(t, Send(g, true)).value;
    assert t.uplink[|before.uplink|] == Request(sid, g);
  }

  ghost predicate Answering(s: State, sid: string) {
    exists k | k in s.tasks :: s.tasks[k].sid == sid && Unfinished(s.tasks[k])
  }

  ghost predicate ClosingAt(s: State, sid: string, i: nat) {
    i < |s.downlink| && s.downlink[i].sid == sid && s.downlink[i].done
  }

  /** A request on the channel is accepted, after those before it. */
  lemma {:induction false} Accepts(from: State, s: State, i: nat, h: nat, sid: string) returns (t: State)
    requires Waits(from, s, h, sid) && i < |s.uplink| && s.uplink[i].sid == sid
    ensures Waits(from, t, h, sid) && Answering(t, sid)
    decreases i
  {
    hide Waits;
    var a := Accept(Plan([], None));
    Go(from, s, a, h, sid);
    t := Step(s, a).value;
    if i == 0 {
      assert s.uplink[0].origin in t.tasks;
    } else {
      t := Accepts(from, t, i - 1, h, sid);
    }
  }

  /** A running task sends its stream to the end. */
  lemma {:induction false} Emits(from: State, s: State, k: nat, h: nat, sid: string) returns (t: State, i: nat)
    requires Waits(from, s, h, sid) && k in s.tasks && s.tasks[k].sid == sid && Unfinished(s.tasks[k])
    ensures Waits(from, t, h, sid) && ClosingAt(t, sid, i)
    decreases if k in s.tasks then |s.tasks[k].plan.chunks| - s.tasks[k].pos else 0
  {
    hide Waits;
    Go(from, s, Emit(k), h, sid);
    t, i := Step(s, Emit(k)).value, |s.downlink|;
    if s.tasks[k].pos < |s.tasks[k].plan.chunks| {
      t, i := Emits(from, t, k, h, sid);
    }
  }

  lemma {:induction false} ByOriginConcat(a: seq<Message>, b: seq<Message>, k: nat)
    ensures ByOrigin(a + b, k) == ByOrigin(a, k) + ByOrigin(b, k)
  {
    if b == [] {
      assert a + b == a;
    } else {
      ByOriginConcat(a, b[..|b| - 1], k);
      ByOriginSnoc(a + b[..|b| - 1], b[|b| - 1], k);
      assert a + b == a + b[..|b| - 1] + [b[|b| - 1]];
    }
  }

  /** The last message of an origin is somewhere in the sequence. */
  lemma {:induction false} LastByOrigin(ms: seq<Message>, k: nat, i: nat) returns (j: nat)
    requires i < |ms| && ms[i].origin == k
    ensures j < |ms| && ms[j].origin == k && ByOrigin(ms, k) != []
    ensures ms[j] == ByOrigin(ms, k)[|ByOrigin(ms, k)| - 1]
  {
    j := |ms| - 1;
    if ms[j].origin != k {
      j := LastByOrigin(ms[..j], k, i);
    }
  }

  lemma SentTask(s: State, i: nat)
    requires Inv(s) && i < |s.downlink|
    ensures var m := s.downlink[i];
            && m.origin in s.tasks && s.tasks[m.origin].sid == m.sid
            && s.tasks[m.origin].pos <= |s.tasks[m.origin].plan.chunks| + 1
            && ByOrigin(s.routed, m.origin) + ByOrigin(s.downlink, m.origin)
               == StreamOf(m.sid, m.origin, s.tasks[m.origin].plan)[..s.tasks[m.origin].pos]
  {
    assert s.sent[|s.routed| + i] == s.downlink[i];
    ByOriginConcat(s.routed, s.downlink, s.downlink[i].origin);
  }

  lemma LastIsClosing(before: seq<Message>, here: seq<Message>, sid: string, k: nat, plan: Plan)
    requires here != [] && before + here == StreamOf(sid, k, plan)[..|plan.chunks| + 1]
    ensures here[|here| - 1] == StreamAt(sid, k, plan, |plan.chunks|)
  {
    assert here[|here| - 1] == (before + here)[|plan.chunks|];
  }

  lemma FinishedCloses(s: State, i: nat) returns (j: nat)
    requires Inv(s) && i < |s.downlink|
    requires s.downlink[i].origin in s.tasks && !Unfinished(s.tasks[s.downlink[i].origin])
    ensures ClosingAt(s, s.downlink[i].sid, j)
  {
    hide Inv, ByOrigin, StreamOf;
    var k := s.downlink[i].origin;
    SentTask(s, i);
    j := LastByOrigin(s.downlink, k, i);
    LastIsClosing(ByOrigin(s.routed, k), ByOrigin(s.downlink, k), s.downlink[i].sid, k, s.tasks[k].plan);
  }

  /** Where one response for the id is on the channel, a closing one is or can be. */
  lemma Closes(from: State, s: State, i: nat, h: nat, sid: string) returns (t: State, j: nat)
    requires Waits(from, s, h, sid) && i < |s.downlink| && s.downlink[i].sid == sid
    ensures Waits(from, t, h, sid) && ClosingAt(t, sid, j)
  {
    var k := s.downlink[i].origin;
    SentTask(s, i);
    hide Inv, ByOrigin, ClosingAt;
    if Unfinished(s.tasks[k]) {
      t, j := Emits(from, s, k, h, sid);
    } else {
      t := s;
      j := FinishedCloses(s, i);
    }
  }

  /** What is not silent comes down to a closing response on its way. */
  lemma ForeignCloses(from: State, s: State, h: nat, sid: string) returns (t: State, j: nat)
    requires Waits(from, s, h, sid) && !QuietBut(s, sid, Some(h))
    ensures Waits(from, t, h, sid) && ClosingAt(t, sid, j)
  {
    hide Waits;
    if i: nat :| i < |s.downlink| && s.downlink[i].sid == sid {
      t, j := Closes(from, s, i, h, sid);
    } else if k :| k in s.tasks && s.tasks[k].sid == sid && Unfinished(s.tasks[k]) {
      t, j := Emits(from, s, k, h, sid);
    } else {
      t := s;
      if g :| g in s.handlers && s.handlers[g].sid == sid && AboutToAsk(s.handlers[g].phase) && g != h {
        t := Asks(from, s, g, h, sid);
      }
      var i: nat :| i < |t.uplink| && t.uplink[i].sid == sid;
      t := Accepts(from, t, i, h, sid);
      var k :| k in t.tasks && t.tasks[k].sid == sid && Unfinished(t.tasks[k]);
      t, j := Emits(from, t, k, h, sid);
    }
  }

  /** The receive thread finishes the response it holds. */
  lemma Settles(from: State, s: State, h: nat, sid: string) returns (t: State)
    requires Waits(from, s, h, sid)
    ensures Waits(from, t, h, sid) && t.dispatch == Ready && t.downlink == s.downlink
    ensures t.handlers[h].dispatched == s.handlers[h].dispatched + Pending(s.dispatch, h)
  {
    hide Inv, CanReach;
    t := s;
    if t.dispatch.Found? {
      Go(from, t, Push, h, sid);
      t := Step(t, Push).value;
    }
    if t.dispatch.Ending? {
      Go(from, t, End, h, sid);
      t := Step(t, End).value;
    }
  }

  /** It receives what is on the channel up to a closing response for the id, which reaches the call. */
  lemma {:induction false} Drains(from: State, s: State, j: nat, h: nat, sid: string) returns (t: State)
    requires Waits(from, s, h, sid) && s.dispatch == Ready && ClosingAt(s, sid, j)
    ensures Waits(from, t, h, sid) && HasDone(t.handlers[h].dispatched)
    decreases j
  {
    hide Inv, CanReach;
    Go(from, s, Receive, h, sid);
    var r := Step(s, Receive).value;
    t := Settles(from, r, h, sid);
    if j == 0 {
      var given := t.handlers[h].dispatched;
      assert given[|given| - 1].done;
    } else {
      assert ClosingAt(t, sid, j - 1);
      t := Drains(from, t, j - 1, h, sid);
    }
  }

  lemma PollThenWrite(s: State, h: nat)
    requires h in s.handlers && s.handlers[h].phase.Consuming? && s.handlers[h].buf.chunks != []
    ensures Step(s, Poll(h, false)).Some? && Step(Step(s, Poll(h, false)).value, Write(h, true)).Some?
    ensures var t := Step(Step(s, Poll(h, false)).value, Write(h, true)).value;
            && h in t.handlers && t.handlers[h] == Wrote(Polled(s.handlers[h], false), true) && t.tasks == s.tasks
  {
  }

  /** A call that has been given a closing response can read on until it leaves through one. */
  lemma {:induction false} Consumes(from: State, s: State, h: nat) returns (t: State)
    requires CanReach(from, s) && Inv(s) && h in s.handlers && s.handlers[h].phase.Consuming?
    requires HasDone(s.handlers[h].dispatched)
    ensures CanReach(from, t) && h in t.handlers && LeftThroughDone(t.handlers[h]) && t.tasks == s.tasks
    decreases if h in s.handlers then |s.handlers[h].buf.chunks| else 0
  {
    DoneQueued(s, h);
    hide Inv, CanReach, Step, HasDone;
    PollThenWrite(s, h);
    StepKeeps(s, Poll(h, false));
    CanGo(from, s, Poll(h, false));
    var p := Step(s, Poll(h, false)).value;
    StepKeeps(p, Write(h, true));
    CanGo(from, p, Write(h, true));
    t := Step(p, Write(h, true)).value;
    if !t.handlers[h].phase.Leaving? {
      t := Consumes(from, t, h);
    }
  }

  lemma DoneQueued(s: State, h: nat)
    requires Inv(s) && h in s.handlers && s.handlers[h].phase.Consuming? && HasDone(s.handlers[h].dispatched)
    ensures s.handlers[h].buf.chunks != []
  {
    assert HandlerOk(s.sessions, s.routed, s.dispatch, h, s.handlers[h]);
    assert s.handlers[h].consumed + [] == s.handlers[h].consumed;
  }

  lemma BeginThenSend(s: State, h: nat)
    requires h in s.handlers && s.handlers[h].phase.Registered?
    ensures Step(s, Begin(h)).Some? && Step(Step(s, Begin(h)).value, Send(h, true)).Some?
    ensures var t := Step(Step(s, Begin(h)).value, Send(h, true)).value;
            && h in t.handlers && t.handlers[h] == s.handlers[h].(phase := Consuming) && t.tasks == s.tasks
  {
  }

  /** It asks, then leaves with what it was given, its own query still unanswered. */
  lemma LeavesUnanswered(from: State, s: State, h: nat, sid: string) returns (t: State)
    requires Waits(from, s, h, sid) && HasDone(s.handlers[h].dispatched)
    ensures CanReach(from, t) && !OwnIfDone(t, h)
  {
    assert h !in s.tasks;
    hide Inv, CanReach, HasDone, Step;
    BeginThenSend(s, h);
    StepKeeps(s, Begin(h));
    CanGo(from, s, Begin(h));
    var b := Step(s, Begin(h)).value;
    StepKeeps(b, Send(h, true));
    CanGo(from, b, Send(h, true));
    t := Consumes(from, Step(b, Send(h, true)).value, h);
  }

  // ---- the exact condition ----------------------------------------------------------

  /** However the run goes on, the call either has not left through `done` or wrote its own whole stream. */
  ghost predicate AlwaysOwn(s: State, h: nat) {
    forall t | CanReach(s, t) :: OwnIfDone(t, h)
  }

  lemma QuietAlwaysOwn(r: State, h: nat, sid: string)
    requires Inv(r) && h !in r.handlers && Silent(r, sid)
    ensures AlwaysOwn(Step(r, Register(h, sid)).value, h)
  {
    var s := Step(r, Register(h, sid)).value;
    StepKeeps(r, Register(h, sid));
    OwnStart(r, h, sid);
    hide Inv, Step, Own, OwnIfDone;
    forall t | CanReach(s, t) ensures OwnIfDone(t, h) {
      var more :| RunFrom(s, more) == Some(t);
      OwnRun(s, more, h);
      OwnEnds(t, h);
    }
  }

  lemma KnownOrigins(s: State)
    requires Inv(s)
    ensures forall i | 0 <= i < |s.uplink| :: s.uplink[i].origin in s.handlers
    ensures forall t | t in s.tasks :: t in s.handlers
    ensures forall i | 0 <= i < |s.downlink| :: s.downlink[i].origin in s.handlers
  {
    assert UplinkOk(s.handlers, s.uplink, s.tasks) && TasksOk(s.handlers, s.tasks, s.sent);
    forall i | 0 <= i < |s.downlink| ensures s.downlink[i].origin in s.handlers {
      DownlinkTasks(s, i);
    }
  }

  lemma OthersStay(r: State, h: nat, sid: string)
    requires h !in r.handlers
    ensures var s := Step(r, Register(h, sid)).value;
            && s.uplink == r.uplink && s.tasks == r.tasks && s.downlink == r.downlink
            && forall g | g in r.handlers :: g in s.handlers && s.handlers[g] == r.handlers[g]
  {
  }

  lemma QuietBefore(r: State, h: nat, sid: string)
    requires Inv(r) && h !in r.handlers && QuietBut(Step(r, Register(h, sid)).value, sid, Some(h))
    ensures Silent(r, sid)
  {
    hide Inv, Step;
    KnownOrigins(r);
    OthersStay(r, h, sid);
  }

  lemma RegisteredWaits(r: State, h: nat, sid: string)
    requires Inv(r) && h !in r.handlers
    ensures var s := Step(r, Register(h, sid)).value;
            Waits(s, s, h, sid) && (QuietBut(s, sid, Some(h)) ==> Silent(r, sid))
  {
    hide Inv, QuietBut;
    var s := Step(r, Register(h, sid)).value;
    StepKeeps(r, Register(h, sid));
    CanStay(s);
    if QuietBut(s, sid, Some(h)) {
      QuietBefore(r, h, sid);
    }
  }

  /** From any reachable state, registering `sid` guarantees the new call its own stream, against whatever
      any call does from then on, if and only if `sid` is silent at that moment. */
  lemma OwnStreamExactly(before: seq<Action>, r: State, h: nat, sid: string)
    requires Reaches(before, r) && h !in r.handlers
    ensures Step(r, Register(h, sid)).Some?
    ensures AlwaysOwn(Step(r, Register(h, sid)).value, h) <==> Silent(r, sid)
  {
    RunKeeps(before);
    var s := Step(r, Register(h, sid)).value;
    if Silent(r, sid) {
      QuietAlwaysOwn(r, h, sid);
    } else {
      RegisteredWaits(r, h, sid);
      hide Inv, Step, Waits, CanReach, Silent, QuietBut, OwnIfDone, ClosingAt;
      var t, j := ForeignCloses(s, s, h, sid);
      var u := Settles(s, t, h, sid);
      assert ClosingAt(u, sid, j) by {
        ClosingStays(t, u, sid, j);
      }
      u := Drains(s, u, j, h, sid);
      u := LeavesUnanswered(s, u, h, sid);
    }
  }

  lemma ClosingStays(t: State, u: State, sid: string, j: nat)
    requires ClosingAt(t, sid, j) && u.downlink == t.downlink
    ensures ClosingAt(u, sid, j)
  {
  }

  /** An answer as a caller gets it: the engine's chunks, numbered from 0 modulo 2^32, and one closing message
      with the error, if there was one. */
  ghost predicate NumberedAnswer(written: seq<Message>, sid: string, plan: Plan) {
    var n := |plan.chunks|;
    && |written| == n + 1
    && (forall i | 0 <= i <= n :: written[i].sid == sid && written[i].chunk == i % 0x1_0000_0000)
    && (forall i | 0 <= i < n :: written[i].text == plan.chunks[i] && !written[i].done)
    && written[n].done && written[n].text == match plan.failure case None => "" case Some(e) => "[error] " + e
  }

  lemma StreamNumbered(sid: string, h: nat, plan: Plan)
    ensures NumberedAnswer(SeenAll(StreamOf(sid, h, plan)), sid, plan)
  {
  }

  /** A call that registered a silent id and left through `done` wrote exactly the whole stream of its
      query: the engine's chunks, numbered from 0, and the closing message. */
  lemma DoneMeansComplete(before: seq<Action>, r: State, h: nat, sid: string, more: seq<Action>, s: State)
    requires Reaches(before, r) && h !in r.handlers && Silent(r, sid)
    requires Reaches(before + [Register(h, sid)] + more, s)
    requires h in s.handlers && LeftThroughDone(s.handlers[h])
    ensures h in s.tasks && s.tasks[h].pos == |s.tasks[h].plan.chunks| + 1
    ensures s.handlers[h].written == SeenAll(StreamOf(sid, h, s.tasks[h].plan))
    ensures NumberedAnswer(s.handlers[h].written, sid, s.tasks[h].plan)
  {
    RunKeeps(before);
    var first := before + [Register(h, sid)];
    assert first[..|before|] == before;
    var s1 := Step(r, Register(h, sid)).value;
    assert Reaches(first, s1);
    RunContinues(first, s1, more);
    StepKeeps(r, Register(h, sid));
    OwnStart(r, h, sid);
    OwnRun(s1, more, h);
    OwnEnds(s, h);
    OwnId(s1, more, h);
    StreamNumbered(sid, h, s.tasks[h].plan);
    hide NumberedAnswer;
  }

  lemma {:induction false} OwnId(s: State, more: seq<Action>, h: nat)
    requires h in s.handlers && RunFrom(s, more).Some?
    ensures h in RunFrom(s, more).value.handlers && RunFrom(s, more).value.handlers[h].sid == s.handlers[h].sid
  {
    hide Step;
    if more != [] {
      OwnId(s, more[..|more| - 1], h);
      Identity(RunFrom(s, more[..|more| - 1]).value, more[|more| - 1], h);
    }
  }

  /** End to end: when the engine answered with `text`, the caller of such a call prints exactly that
      text; after an exception it prints the chunks and the error. */
  lemma EndToEndText(before: seq<Action>, r: State, h: nat, sid: string, more: seq<Action>, s: State)
    requires Reaches(before, r) && h !in r.handlers && Silent(r, sid)
    requires Reaches(before + [Register(h, sid)] + more, s)
    requires h in s.handlers && LeftThroughDone(s.handlers[h])
    ensures h in s.tasks
    ensures Printed(s.handlers[h].written) == Engine.Concat(s.tasks[h].plan.chunks) + FinalText(s.tasks[h].plan)
    ensures forall text: string | s.tasks[h].plan == Plan(Engine.ChunkText(text), None) ::
              Printed(s.handlers[h].written) == text
  {
    DoneMeansComplete(before, r, h, sid, more, s);
    var plan := s.tasks[h].plan;
    StreamPrints(sid, h, plan);
    forall text: string | plan == Plan(Engine.ChunkText(text), None)
      ensures Printed(s.handlers[h].written) == text
    {
      Engine.ChunksRebuild(text);
    }
  }
}
