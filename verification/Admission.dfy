/** What becomes of a CALL when it arrives, read off the message and the tables, and where a relayed call
    ends up. */
module Admission {
  import opened Wrappers
  import opened Text
  import opened Messages
  import opened Tables
  import opened Steps
  import opened Registry
  import opened Queue
  import opened Ledger
  import opened Stranded

  // The caller is told why, and that is all.
  predicate Refused(s: State, t: State, caller: Id, a: ActionId, r: Reason) {
    t == s.(fabs := t.fabs,
            sent := s.sent + [Sent(caller, |caller| <= LOCAL_ID_LENGTH || caller in s.fabs, Answer, a, Raised(a, r))])
  }

  // d is the call in the message, bound to interface r.
  predicate IsTheCall(s: State, d: Call, m: Msg, mod: string, func: string, ver: U64, r: Ref, now: Time) {
    && d.identity == m.identity && d.actionid == m.actionid && d.local == m.local && d.body == m.body
    && d.mod == mod && d.func == func && d.ver == ver && d.inTs == now && d.iface == Some(r)
    && d.globals == if m.local then At(s.store, r).globals else []
  }

  // The call is with module id, which is busy with it.
  predicate IsGiven(s: State, t: State, d: Call, id: Id, now: Time) {
    && IsIdle(s, id) && d.routedVia == Some(id) && d.procTs == now && d.outTs == 0
    && t.modules == s.modules[id := s.modules[id].(state := Busy)]
    && t.sent == s.sent + [Sent(id, |id| <= LOCAL_ID_LENGTH || id in s.fabs, CallOut(!d.local, false), d.actionid, d.body)]
  }

  // The call is with fabric id.
  predicate IsSentOn(s: State, t: State, d: Call, id: Id, now: Time) {
    && d.routedVia == Some(id) && d.outTs == now && d.procTs == 0 && t.modules == s.modules
    && t.sent == s.sent + [Sent(id, |id| <= LOCAL_ID_LENGTH || id in s.fabs, CallOut(false, true), d.actionid, d.body)]
  }

  predicate IsWaiting(s: State, t: State, d: Call) {
    d.routedVia.None? && d.procTs == 0 && d.outTs == 0 && t.modules == s.modules && t.sent == s.sent
  }

  // What is done with the call d, which interface r serves: it goes to the module chosen among the idle
  // ones; with no local provider, to a fabric, if it came from a module; or else it waits.
  ghost predicate IsPlaced(s: State, t: State, d: Call, i: Iface, now: Time) {
    if i.locals == [] && d.local && i.globals != [] then
      exists id :: FabricOf(d, id) && if IsIdle(s, id) then IsGiven(s, t, d, id, now) else IsSentOn(s, t, d, id, now)
    else if NobodyToGive(s, i) then IsWaiting(s, t, d)
    else exists id :: Chosen(s, i, id) && IsGiven(s, t, d, id, now)
  }

  ghost predicate Admitted(s: State, t: State, m: Msg, mod: string, func: string, ver: U64, r: Ref, now: Time) {
    t == s.(fabs := t.fabs, modules := t.modules, sent := t.sent, queue := t.queue, dropped := t.dropped) &&
    exists d :: IsTheCall(s, d, m, mod, func, ver, r, now) && IsPlaced(s, t, d, At(s.store, r), now)
      && (if m.actionid in s.queue
          then t.queue == s.queue && t.dropped == s.dropped + [Drop(m.actionid, m.identity, DuplicateId)]
          else t.queue == s.queue[m.actionid := d] && t.dropped == s.dropped)
  }

  lemma NewCallIsPlaced(s: State, c: Call, p: Placed, r: Ref, now: Time)
    requires Outcome(s, c, p, now) && p.st.up && s.up && CheckInterface(s, c.mod, c.func, c.ver) == Some(r)
    requires c.iface.None? && c.routedVia.None? && c.procTs == 0 && c.outTs == 0 && c.globals == []
    ensures p.rc == 0 && IsPlaced(s, p.st, p.call, At(s.store, r), now)
    ensures p.call == c.(iface := Some(r), globals := if c.local then At(s.store, r).globals else [],
                         routedVia := p.call.routedVia, procTs := p.call.procTs, outTs := p.call.outTs)
  {
    hide CheckInterface, NobodyToGive, Chosen;
    var b, i := Bind(s, c), At(s.store, r);
    assert CanRelay(s, b) <==> i.locals == [] && c.local && i.globals != [];
    if id :| Handed(s, b, p, id, now) {
      assert IsGiven(s, p.st, p.call, id, now);
      if CanRelay(s, b) { assert FabricOf(p.call, id); } else { ChosenMeansSomebody(s, i, id); }
    } else if id :| Relayed(s, b, p, id, now) {
      assert IsSentOn(s, p.st, p.call, id, now) && FabricOf(p.call, id);
    }
  }

  lemma ChosenMeansSomebody(s: State, i: Iface, id: Id)
    requires Chosen(s, i, id)
    ensures !NobodyToGive(s, i)
  {}

  lemma AdmissionOf(s: State, m: Msg, mod: string, func: string, ver: U64, p: Placed, r: Ref, now: Time)
    requires p.st.up && p.rc == 0 && p.st == s.(modules := p.st.modules, sent := p.st.sent)
    requires IsTheCall(s, p.call, m, mod, func, ver, r, now) && IsPlaced(s, p.st, p.call, At(s.store, r), now)
    ensures if !m.local && NobodyToGive(s, At(s.store, r)) then Refused(s, Admit(m, p), m.identity, m.actionid, NoModules)
            else Admitted(s, Admit(m, p), m, mod, func, ver, r, now)
  {
    hide NobodyToGive, Chosen, FabricOf, IsIdle;
    var t, i := Admit(m, p), At(s.store, r);
    if m.local || !NobodyToGive(s, i) {
      assert p.call.routedVia.Some? || m.local;
      SamePlace(s, p.st, t, p.call, i, now);
    }
  }

  lemma SamePlace(s: State, t: State, u: State, d: Call, i: Iface, now: Time)
    requires IsPlaced(s, t, d, i, now) && u.modules == t.modules && u.sent == t.sent
    ensures IsPlaced(s, u, d, i, now)
  {
    hide NobodyToGive, Chosen, FabricOf, IsIdle;
    if i.locals == [] && d.local && i.globals != [] {
      var id :| FabricOf(d, id) && if IsIdle(s, id) then IsGiven(s, t, d, id, now) else IsSentOn(s, t, d, id, now);
      assert if IsIdle(s, id) then IsGiven(s, u, d, id, now) else IsSentOn(s, u, d, id, now);
    } else if !NobodyToGive(s, i) {
      var id :| Chosen(s, i, id) && IsGiven(s, t, d, id, now);
      assert IsGiven(s, u, d, id, now);
    }
  }

  // What a CALL comes to
  ghost predicate IsHandled(s: State, t: State, m: Msg, now: Time) {
    match (BodyString(m.body, "module"), BodyString(m.body, "function"))
    case (Some(mod), Some(func)) => (
      var ver := BodyInt(m.body, "version");
      if ver == 0 then Refused(s, t, m.identity, m.actionid, WrongCall)
      else
        match CheckInterface(s, mod, func, ver)
        case None => Refused(s, t, m.identity, m.actionid, NoModules)
        case Some(r) =>
          if !m.local && NobodyToGive(s, At(s.store, r)) then Refused(s, t, m.identity, m.actionid, NoModules)
          else Admitted(s, t, m, mod, func, ver, r, now))
    case _ => Refused(s, t, m.identity, m.actionid, WrongCall)
  }

  lemma ProcessedIsHandled(s: State, m: Msg, now: Time)
    requires s.up && ProcessCall(s, m, now).up
    ensures IsHandled(s, ProcessCall(s, m, now), m, now)
  {
    hide PlaceCall, IsPlaced, CheckInterface, NobodyToGive, BodyString, BodyInt;
    match CallOf(m, now) {
      case None =>
      case Some(c) =>
        var p := PlaceCall(s, c, now);
        PlaceCallOutcome(s, c, now);
        PlaceCallFrame(s, c, now);
        match CheckInterface(s, c.mod, c.func, c.ver) {
          case None =>
            hide Outcome;
            assert p.rc == -1 by { NobodyServes(s, c, p, now); }
          case Some(r) =>
            NewCallIsPlaced(s, c, p, r, now);
            hide Outcome, Admit, Admitted;
            AdmissionOf(s, m, c.mod, c.func, c.ver, p, r, now);
        }
    }
  }

  lemma NobodyServes(s: State, c: Call, p: Placed, now: Time)
    requires Outcome(s, c, p, now) && c.iface.None? && CheckInterface(s, c.mod, c.func, c.ver).None?
    ensures p.rc == -1 && p.st == s
  {}

  // Marking a fabric alive first makes no difference.
  lemma PlacedAlive(s: State, s1: State, t: State, d: Call, i: Iface, now: Time)
    requires s1 == s.(fabs := s1.fabs) && s1.fabs.Keys == s.fabs.Keys && IsPlaced(s1, t, d, i, now)
    ensures IsPlaced(s, t, d, i, now)
  {
    hide LastIdle, NoneIdle, FabricOf;
    assert NobodyToGive(s, i) == NobodyToGive(s1, i);
    if i.locals == [] && d.local && i.globals != [] {
      var id :| FabricOf(d, id) && if IsIdle(s1, id) then IsGiven(s1, t, d, id, now) else IsSentOn(s1, t, d, id, now);
      assert if IsIdle(s, id) then IsGiven(s, t, d, id, now) else IsSentOn(s, t, d, id, now);
    } else if !NobodyToGive(s, i) {
      var id :| Chosen(s1, i, id) && IsGiven(s1, t, d, id, now);
      assert Chosen(s, i, id) && IsGiven(s, t, d, id, now);
    }
  }

  lemma HandledAlive(s: State, s1: State, t: State, m: Msg, now: Time)
    requires s1 == s.(fabs := s1.fabs) && s1.fabs.Keys == s.fabs.Keys && IsHandled(s1, t, m, now)
    ensures IsHandled(s, t, m, now)
  {
    hide BodyString, BodyInt, CheckFrom, IsPlaced, LastIdle, NoneIdle, Raised;
    forall mod, func, ver, r | Admitted(s1, t, m, mod, func, ver, r, now) ensures Admitted(s, t, m, mod, func, ver, r, now) {
      var d :| IsTheCall(s1, d, m, mod, func, ver, r, now) && IsPlaced(s1, t, d, At(s.store, r), now)
        && (if m.actionid in s.queue
            then t.queue == s.queue && t.dropped == s.dropped + [Drop(m.actionid, m.identity, DuplicateId)]
            else t.queue == s.queue[m.actionid := d] && t.dropped == s.dropped);
      PlacedAlive(s, s1, t, d, At(s.store, r), now);
      assert IsTheCall(s, d, m, mod, func, ver, r, now);
    }
  }

  // A call that is not well formed, that no interface serves, or that came from a fabric while no module
  // can take it at once, is refused, with its reason; any other is bound to the interface that
  // check_interface finds and placed, or waits.
  lemma CallIsHandled(s: State, e: Event, m: Msg, now: Time)
    requires s.up && e.Arrive? && Parse(e.local, e.identity, e.body) == Some((VCall, m)) && Step(s, e, now).up
    ensures m.identity == e.identity && m.local == e.local && m.body == e.body
    ensures IsHandled(s, Step(s, e, now), m, now)
  {
    hide ProcessCall, IsHandled;
    var s1 := if e.local then s else MarkAlive(s, e.identity);
    ProcessedIsHandled(s1, m, now);
    HandledAlive(s, s1, Step(s, e, now), m, now);
  }

  // ---------- where a relayed call went ----------

  // c was bound on arrival, which led to t, to the interface that check_interface finds; and a call of a
  // module has copied the fabrics that this interface lists.
  ghost predicate WasBound(t: State, c: Call) {
    && c.iface.Some? && CheckInterface(t, c.mod, c.func, c.ver) == c.iface
    && c.globals == if c.local then At(t.store, c.iface.value).globals else []
  }

  lemma {:induction false} BoundOnArrival(cfg: Config, ticks: seq<Tick>, k: nat, a: ActionId)
    requires Run(cfg, ticks).up && k < |ticks| && a !in Run(cfg, ticks[..k]).queue
    requires forall n | k < n <= |ticks| :: a in Run(cfg, ticks[..n]).queue
    ensures ticks[..|ticks|] == ticks && a in Run(cfg, ticks).queue
    ensures WasBound(Run(cfg, ticks[..k + 1]), Run(cfg, ticks).queue[a])
    decreases |ticks|
  {
    hide Step, RegistryOk, CallsOk, KeepsFirst, FewProviders;
    var before, last := ticks[..|ticks| - 1], ticks[|ticks| - 1];
    var s, t := Run(cfg, before), Run(cfg, ticks);
    assert ticks[..|ticks|] == ticks && ticks[..|before|] == before;
    StayedUp(cfg, ticks);
    RunKeepsCalls(cfg, before);
    StepAdvances(s, last.ev, last.now);
    assert a in t.queue;
    if k < |before| {
      assert before[..k] == ticks[..k] && before[..k + 1] == ticks[..k + 1];
      assert forall n | k < n <= |before| :: before[..n] == ticks[..n];
      BoundOnArrival(cfg, before, k, a);
      StepLedger(s, last.ev, last.now, "", "");
      assert Recorded(s, t, last.ev, last.now, "", "");
      assert Stays(s, s.queue[a], t.queue[a]);
      SameBinding(Run(cfg, ticks[..k + 1]), s.queue[a], t.queue[a]);
    } else {
      assert Arrives(t, t.queue[a]);
    }
  }

  lemma SameBinding(t: State, c: Call, d: Call)
    requires WasBound(t, c) && SameRequest(c, d) && d.local == c.local
    ensures WasBound(t, d)
  {}

  // Over any run: a queued call that is with a fabric came from a module, and went to the second fabric -
  // to the only one, if there was just one - that its interface listed when the call arrived.
  lemma RelayTargetWasListed(cfg: Config, ticks: seq<Tick>, a: ActionId) returns (k: nat)
    requires Run(cfg, ticks).up && a in Run(cfg, ticks).queue && Run(cfg, ticks).queue[a].outTs != 0
    ensures k < |ticks| && a !in Run(cfg, ticks[..k]).queue
    ensures var c, t := Run(cfg, ticks).queue[a], Run(cfg, ticks[..k + 1]);
      && IsCall(ticks[k].ev, a, c.identity) && ticks[k].ev.local && ticks[k].now == c.inTs
      && c.iface.Some? && CheckInterface(t, c.mod, c.func, c.ver) == c.iface
      && var listed := At(t.store, c.iface.value).globals;
         listed != [] && c.routedVia == Some(if |listed| >= 2 then listed[1] else listed[0])
  {
    k := QueuedCallWasReceived(cfg, ticks, a);
    RunKeepsCalls(cfg, ticks);
    BoundOnArrival(cfg, ticks, k, a);
    assert CallOk(Run(cfg, ticks).queue[a], Run(cfg, ticks).store);
  }
}
