/** What the answers say: where their bodies come from, and which reason a timeout is given. */
module Replies {
  import opened Wrappers
  import opened Text
  import opened Messages
  import opened Tables
  import opened Steps
  import opened Registry
  import opened Queue

  // ---------- provenance ----------

  // The message in e has this action id and body, and is a CALL on that socket.
  predicate CarriesCall(e: Event, local: bool, a: ActionId, body: Value) {
    e.Arrive? && e.local == local && e.body == body &&
    match Parse(e.local, e.identity, e.body)
    case None => false
    case Some((verb, m)) => m.actionid == a && verb.VCall?
  }

  // ... or is a RESULT or EXCEPTION.
  predicate CarriesReply(e: Event, a: ActionId, body: Value) {
    e.Arrive? && e.body == body &&
    match Parse(e.local, e.identity, e.body)
    case None => false
    case Some((verb, m)) => m.actionid == a && (verb.VResult? || verb.VException?)
  }

  ghost predicate ReceivedCall(ticks: seq<Tick>, local: bool, a: ActionId, body: Value) {
    exists k | 0 <= k < |ticks| :: CarriesCall(ticks[k].ev, local, a, body)
  }

  ghost predicate ReceivedReply(ticks: seq<Tick>, a: ActionId, body: Value) {
    exists k | 0 <= k < |ticks| :: CarriesReply(ticks[k].ev, a, body)
  }

  // A call that is handed on is a CALL that was received, on the socket that its flag says, and goes
  // to another fabric only if that was the local one. An answer is a reply that was received or one
  // of the broker's own exceptions. What goes to a short identity, which is a local one, arrives.
  ghost predicate Honest(ticks: seq<Tick>, x: Sent) {
    && Reaches(x)
    && match x.kind
       case CallOut(foreign, relayed) => ReceivedCall(ticks, !foreign, x.actionid, x.body) && !(foreign && relayed)
       case Answer => ReceivedReply(ticks, x.actionid, x.body) || exists r :: x.body == Raised(x.actionid, r)
       case Ask => x.body == IfaceListRequest(x.actionid)
       case _ => true
  }

  predicate Reaches(x: Sent) { |x.to| <= LOCAL_ID_LENGTH ==> x.reached }

  ghost predicate AllHonest(ticks: seq<Tick>, sent: seq<Sent>) {
    forall k | 0 <= k < |sent| :: Honest(ticks, sent[k])
  }

  ghost predicate QueueReceived(ticks: seq<Tick>, queue: map<ActionId, Call>) {
    forall a <- queue :: ReceivedCall(ticks, queue[a].local, queue[a].actionid, queue[a].body)
  }

  ghost predicate Sourced(ticks: seq<Tick>, s: State) { AllHonest(ticks, s.sent) && QueueReceived(ticks, s.queue) }

  lemma Unchanged(ticks: seq<Tick>, s: State, t: State)
    requires Sourced(ticks, s) && t.sent == s.sent
    requires forall a <- t.queue :: a in s.queue && t.queue[a] == s.queue[a]
    ensures Sourced(ticks, t)
  {}

  lemma Says(ticks: seq<Tick>, s: State, t: State, x: Sent)
    requires Sourced(ticks, s) && Honest(ticks, x)
    requires t.sent == s.sent + [x] && forall a <- t.queue :: a in s.queue && t.queue[a] == s.queue[a]
    ensures Sourced(ticks, t)
  {
    hide Honest;
  }

  // x hands on the call c.
  predicate Passes(x: Sent, c: Call) {
    && x.kind.CallOut? && x.actionid == c.actionid && x.body == c.body && Reaches(x)
    && x.kind.foreign == !c.local && (x.kind.relayed ==> c.local)
  }

  lemma OutcomeSends(s: State, c: Call, p: Placed, now: Time)
    requires Outcome(s, c, p, now)
    ensures p.call.actionid == c.actionid && p.call.body == c.body && p.call.local == c.local
    ensures p.st.sent == s.sent || exists x :: p.st.sent == s.sent + [x] && Passes(x, c)
  {
    hide CheckInterface;
    var b := Bind(s, c);
    if id :| Handed(s, b, p, id, now) {
      assert Passes(p.st.sent[|s.sent|], c);
    } else if id :| Relayed(s, b, p, id, now) {
      assert Passes(p.st.sent[|s.sent|], c);
    }
  }

  lemma PlaceSends(s: State, c: Call, now: Time)
    ensures var p := PlaceCall(s, c, now);
      && p.call.actionid == c.actionid && p.call.body == c.body && p.call.local == c.local
      && (p.st.sent == s.sent || exists x :: p.st.sent == s.sent + [x] && Passes(x, c))
  {
    hide PlaceCall, Outcome, Passes;
    PlaceCallOutcome(s, c, now);
    if c.routedVia.None? { OutcomeSends(s, c, PlaceCall(s, c, now), now); }
  }

  lemma PlaceKeeps(ticks: seq<Tick>, s: State, c: Call, now: Time)
    requires Sourced(ticks, s) && ReceivedCall(ticks, c.local, c.actionid, c.body)
    ensures var p := PlaceCall(s, c, now);
      && Sourced(ticks, p.st) && p.st.queue == s.queue
      && p.call.actionid == c.actionid && p.call.body == c.body && p.call.local == c.local
  {
    hide PlaceCall, ReceivedCall, ReceivedReply, Sourced;
    PlaceSends(s, c, now);
    PlaceCallFrame(s, c, now);
    var p := PlaceCall(s, c, now);
    if p.st.sent == s.sent {
      Unchanged(ticks, s, p.st);
    } else {
      var x :| p.st.sent == s.sent + [x] && Passes(x, c);
      Says(ticks, s, p.st, x);
    }
  }

  lemma PlaceQueuedHonest(ticks: seq<Tick>, s: State, a: ActionId, now: Time)
    requires Sourced(ticks, s) && a in s.queue
    ensures Sourced(ticks, PlaceQueued(s, a, now).st)
  {
    hide PlaceCall, ReceivedCall, ReceivedReply;
    PlaceKeeps(ticks, s, s.queue[a], now);
  }

  lemma {:induction false} DrainHonest(ticks: seq<Tick>, s: State, order: seq<ActionId>, now: Time)
    requires Sourced(ticks, s)
    ensures Sourced(ticks, Drain(s, order, now))
    decreases |order|
  {
    hide PlaceQueued, Sourced;
    if order != [] && s.up {
      if order[0] in s.queue {
        PlaceQueuedHonest(ticks, s, order[0], now);
        DrainHonest(ticks, PlaceQueued(s, order[0], now).st, order[1..], now);
      } else {
        DrainHonest(ticks, s, order[1..], now);
      }
    }
  }

  lemma ReplyHonest(ticks: seq<Tick>, s: State, m: Msg, order: seq<ActionId>, now: Time)
    requires Sourced(ticks, s) && m.actionid in s.queue && ReceivedReply(ticks, m.actionid, m.body)
    ensures Sourced(ticks, LocalReply(s, s.queue[m.actionid], m, order, now))
    ensures Sourced(ticks, FabricReply(s, s.queue[m.actionid], m))
  {
    hide ReceivedCall, ReceivedReply, Sourced, Drain;
    var c := s.queue[m.actionid];
    var t, u := Finish(s, c, m), FabricReply(s, c, m);
    if t.sent == s.sent { Unchanged(ticks, s, t); } else { Says(ticks, s, t, t.sent[|s.sent|]); }
    if u.sent == s.sent { Unchanged(ticks, s, u); } else { Says(ticks, s, u, u.sent[|s.sent|]); }
    if m.identity in t.modules {
      if t.modules[m.identity].needRestart {
        Unchanged(ticks, t, Tell(t, Restart(t.modules[m.identity].pid)));
      } else {
        Unchanged(ticks, t, SetState(t, m.identity, Idle));
        DrainHonest(ticks, SetState(t, m.identity, Idle), order, now);
      }
    }
  }

  lemma RefuseHonest(ticks: seq<Tick>, s: State, m: Msg, r: Reason)
    requires Sourced(ticks, s)
    ensures Sourced(ticks, Refuse(s, m, r))
  {
    hide Sourced;
    var t := Refuse(s, m, r);
    Says(ticks, s, t, t.sent[|s.sent|]);
  }

  lemma EnqueueHonest(ticks: seq<Tick>, s: State, c: Call)
    requires Sourced(ticks, s) && ReceivedCall(ticks, c.local, c.actionid, c.body)
    ensures Sourced(ticks, Enqueue(s, c))
  {
    hide ReceivedCall, ReceivedReply;
  }

  lemma CallHonest(ticks: seq<Tick>, s: State, m: Msg, now: Time)
    requires Sourced(ticks, s) && ReceivedCall(ticks, m.local, m.actionid, m.body)
    ensures Sourced(ticks, ProcessCall(s, m, now))
  {
    hide Sourced, ReceivedCall, ReceivedReply, PlaceCall, Refuse, Enqueue;
    match CallOf(m, now) {
      case None => RefuseHonest(ticks, s, m, WrongCall);
      case Some(c) =>
        PlaceKeeps(ticks, s, c, now);
        var p := PlaceCall(s, c, now);
        RefuseHonest(ticks, p.st, m, NoModules);
        Unchanged(ticks, p.st, Discard(p.st, m.actionid, m.identity, DuplicateId));
        EnqueueHonest(ticks, p.st, p.call);
    }
  }

  lemma IntroduceHonest(ticks: seq<Tick>, s: State, m: Msg, known: bool, keys: seq<string>)
    requires Sourced(ticks, s) && RegistryOk(s)
    ensures Sourced(ticks, ProcessIntroduce(s, m, known, keys))
  {
    hide Sourced, RegistryOk, ProcessIntroduce;
    IntroduceKeepsRegistry(s, m, known, keys);
    var t := ProcessIntroduce(s, m, known, keys);
    if |t.sent| == |s.sent| { Unchanged(ticks, s, t); } else { Says(ticks, s, t, t.sent[|s.sent|]); }
  }

  lemma QuietHonest(ticks: seq<Tick>, s: State, m: Msg)
    requires Sourced(ticks, s) && RegistryOk(s)
    ensures Sourced(ticks, ProcessRequest(s, m)) && Sourced(ticks, ProcessIfaceList(s, m))
  {
    hide Sourced, RegistryOk;
    IfaceListKeepsRegistry(s, m);
    Unchanged(ticks, s, ProcessIfaceList(s, m));
    var t := ProcessRequest(s, m);
    if t.sent == s.sent { Unchanged(ticks, s, t); } else { Says(ticks, s, t, t.sent[|s.sent|]); }
  }

  lemma CommandHonest(ticks: seq<Tick>, s: State, verb: Verb, m: Msg, e: Event, now: Time)
    requires Sourced(ticks, s) && RegistryOk(s) && e.Arrive?
    requires verb.VCall? ==> ReceivedCall(ticks, m.local, m.actionid, m.body)
    requires verb.VResult? || verb.VException? ==> ReceivedReply(ticks, m.actionid, m.body)
    ensures Sourced(ticks, ProcessCommand(s, verb, m, e, now))
  {
    hide Sourced, ReceivedCall, ReceivedReply, RegistryOk, LocalReply, FabricReply, PlaceQueued, ProcessCall, ProcessIntroduce,
      ProcessRequest, ProcessIfaceList;
    QuietHonest(ticks, s, m);
    match verb {
      case VResult => if m.actionid in s.queue { ReplyHonest(ticks, s, m, e.order, now); }
      case VException =>
        if m.actionid in s.queue {
          ReplyHonest(ticks, s, m, e.order, now);
          PlaceQueuedHonest(ticks, s, m.actionid, now);
        }
      case VCall => CallHonest(ticks, s, m, now);
      case VIntroduce => IntroduceHonest(ticks, s, m, e.known, e.keys);
      case _ =>
    }
  }

  lemma SweepItemHonest(ticks: seq<Tick>, s: State, a: ActionId, now: Time)
    requires Sourced(ticks, s)
    ensures Sourced(ticks, SweepItem(s, a, now))
  {
    hide Sourced, Raised;
    var t := SweepItem(s, a, now);
    if t.sent == s.sent { Unchanged(ticks, s, t); } else { Says(ticks, s, t, t.sent[|s.sent|]); }
  }

  lemma {:induction false} SweepHonest(ticks: seq<Tick>, s: State, order: seq<ActionId>, now: Time)
    requires Sourced(ticks, s)
    ensures Sourced(ticks, Sweep(s, order, now))
    decreases |order|
  {
    hide Sourced, SweepItem;
    if order != [] {
      SweepItemHonest(ticks, s, order[0], now);
      SweepHonest(ticks, SweepItem(s, order[0], now), order[1..], now);
    }
  }

  lemma PollItemHonest(ticks: seq<Tick>, s: State, q: Polled)
    requires Sourced(ticks, s)
    ensures Sourced(ticks, PollItem(s, q))
  {
    hide Sourced;
    var t := PollItem(s, q);
    if t.sent == s.sent { Unchanged(ticks, s, t); } else { Says(ticks, s, t, t.sent[|s.sent|]); }
  }

  lemma {:induction false} PollHonest(ticks: seq<Tick>, s: State, order: seq<Polled>)
    requires Sourced(ticks, s)
    ensures Sourced(ticks, Poll(s, order))
    decreases |order|
  {
    hide Sourced, PollItem;
    if order != [] {
      PollItemHonest(ticks, s, order[0]);
      PollHonest(ticks, PollItem(s, order[0]), order[1..]);
    }
  }

  lemma MessageHonest(ticks: seq<Tick>, s: State, e: Event, now: Time)
    requires Sourced(ticks, s) && RegistryOk(s) && e.Arrive?
    requires ticks != [] && ticks[|ticks| - 1].ev == e
    ensures Sourced(ticks, OnMessage(s, e, now))
  {
    hide Sourced, ProcessCommand;
    match Parse(e.local, e.identity, e.body) {
      case None =>
      case Some((verb, m)) =>
        var s1 := if e.local then s else MarkAlive(s, e.identity);
        assert s1.fabs.Keys == s.fabs.Keys;
        Unchanged(ticks, s, s1);
        assert verb.VCall? ==> CarriesCall(ticks[|ticks| - 1].ev, m.local, m.actionid, m.body);
        assert verb.VResult? || verb.VException? ==> CarriesReply(ticks[|ticks| - 1].ev, m.actionid, m.body);
        CommandHonest(ticks, s1, verb, m, e, now);
    }
  }

  lemma StepHonest(ticks: seq<Tick>, s: State, now: Time)
    requires ticks != [] && Sourced(ticks, s) && RegistryOk(s)
    ensures Sourced(ticks, Step(s, ticks[|ticks| - 1].ev, now))
  {
    hide Sourced, RegistryOk, OnMessage, Sweep, Poll;
    var e := ticks[|ticks| - 1].ev;
    match e {
      case Arrive(_, _, _, _, _, _) => MessageHonest(ticks, s, e, now);
      case SweepTimer(order) => SweepHonest(ticks, s, order, now);
      case PollTimer(order) => PollHonest(ticks, s, order);
      case Beacon(id, connected) => Unchanged(ticks, s, OnBeacon(s, id, connected));
      case FromProcman(f, order) => Unchanged(ticks, s, OnProcman(s, f, order));
    }
  }

  lemma Later(before: seq<Tick>, last: Tick, s: State)
    requires Sourced(before, s)
    ensures Sourced(before + [last], s)
  {
    var ticks := before + [last];
    forall local: bool, a: ActionId, body: Value | ReceivedCall(before, local, a, body)
      ensures ReceivedCall(ticks, local, a, body)
    {
      var k :| 0 <= k < |before| && CarriesCall(before[k].ev, local, a, body);
      assert ticks[k] == before[k];
    }
    forall a: ActionId, body: Value | ReceivedReply(before, a, body) ensures ReceivedReply(ticks, a, body) {
      var k :| 0 <= k < |before| && CarriesReply(before[k].ev, a, body);
      assert ticks[k] == before[k];
    }
  }

  // In every run, whatever peers send: each call handed on has the body of a CALL received under
  // its id on the socket its flag names, and goes to another fabric only if that was the local one;
  // each answer has the body of a RESULT or EXCEPTION received under its id, or is one of the
  // broker's five exceptions for it.
  lemma {:induction false} AnswersAreHonest(cfg: Config, ticks: seq<Tick>)
    ensures Sourced(ticks, Run(cfg, ticks))
  {
    hide RegistryOk, Step, Sourced;
    if ticks == [] {
      NothingYet(cfg);
    } else {
      var before, last := ticks[..|ticks| - 1], ticks[|ticks| - 1];
      AnswersAreHonest(cfg, before);
      Later(before, last, Run(cfg, before));
      assert before + [last] == ticks;
      if Run(cfg, before).up {
        RunKeepsRegistry(cfg, before);
        StepHonest(ticks, Run(cfg, before), last.now);
      } else {
        DownDoesNothing(Run(cfg, before), last);
      }
    }
  }

  lemma NothingYet(cfg: Config)
    ensures Sourced([], Init(cfg))
  {}

  lemma DownDoesNothing(s: State, last: Tick)
    requires !s.up
    ensures Step(s, last.ev, last.now) == s
  {}

  // ---------- timeouts ----------

  // What has been handed to send_message since
  function NewlySent(s: State, t: State): seq<Sent> { if |s.sent| <= |t.sent| then t.sent[|s.sent|..] else [] }

  lemma SentSince(s: State, t: State, u: State)
    requires s.sent <= t.sent <= u.sent
    ensures NewlySent(s, u) == NewlySent(s, t) + NewlySent(t, u)
  {}

  // A sweep answers every expired call it visits, with that reason, and the module that kept the
  // call too long is taken out of the tables and its process is to be restarted.
  lemma {:induction false} SweepAnswers(s: State, order: seq<ActionId>, now: Time, a: ActionId)
    requires a in order && a in s.queue && Expired(s.cfg, s.queue[a], now)
    ensures var t, c := Sweep(s, order, now), s.queue[a];
      && a !in t.queue
      && Sent(c.identity, |c.identity| <= LOCAL_ID_LENGTH || c.identity in s.fabs, Answer, c.actionid,
              Raised(c.actionid, TimeoutReason(s.cfg, c, now))) in NewlySent(s, t)
      && (ProcessExpired(s.cfg, c, now) && !s.cfg.debug && c.routedVia.value in s.modules ==>
            c.routedVia.value !in t.modules && Restart(s.modules[c.routedVia.value].pid) in t.commands)
    decreases |order|
  {
    var t := SweepItem(s, order[0], now);
    SweepItemFrame(s, order[0], now);
    SweepOnlyAdds(t, order[1..], now);
    SentSince(s, t, Sweep(s, order, now));
    if order[0] == a {
      assert NewlySent(s, t) == [t.sent[|s.sent|]];
    } else {
      hide SweepItem, NewlySent;
      SweepAnswers(t, order[1..], now, a);
    }
  }

  lemma SweepItemFrame(s: State, b: ActionId, now: Time)
    ensures var t := SweepItem(s, b, now);
      && t.cfg == s.cfg && t.fabs == s.fabs
      && (forall a <- s.queue | a != b :: a in t.queue && t.queue[a] == s.queue[a])
      && (forall id <- t.modules :: id in s.modules && t.modules[id] == s.modules[id])
      && s.sent <= t.sent && (forall x <- s.commands :: x in t.commands)
      && (forall id <- s.modules | id !in t.modules :: Restart(s.modules[id].pid) in t.commands)
  {}

  lemma {:induction false} SweepOnlyAdds(s: State, order: seq<ActionId>, now: Time)
    ensures var t := Sweep(s, order, now);
      && s.sent <= t.sent && (forall x <- s.commands :: x in t.commands)
      && (forall a <- t.queue :: a in s.queue) && (forall id <- t.modules :: id in s.modules)
    decreases |order|
  {
    if order != [] {
      SweepItemFrame(s, order[0], now);
      SweepOnlyAdds(SweepItem(s, order[0], now), order[1..], now);
    }
  }

  // ... and no other module is.
  lemma {:induction false} SweepSparesOthers(s: State, order: seq<ActionId>, now: Time, id: Id)
    requires id in s.modules && id !in Sweep(s, order, now).modules
    ensures !s.cfg.debug && exists a <- order ::
      a in s.queue && ProcessExpired(s.cfg, s.queue[a], now) && s.queue[a].routedVia == Some(id)
    decreases |order|
  {
    var t := SweepItem(s, order[0], now);
    SweepItemFrame(s, order[0], now);
    if id in t.modules {
      SweepItemQueue(s, order[0], now);
      hide SweepItem;
      SweepSparesOthers(t, order[1..], now, id);
      assert order == [order[0]] + order[1..];
    } else {
      assert order[0] in order;
    }
  }

  lemma SweepItemQueue(s: State, b: ActionId, now: Time)
    ensures forall a <- SweepItem(s, b, now).queue :: a in s.queue && SweepItem(s, b, now).queue[a] == s.queue[a]
  {}

  // Nothing else is said under the id of a queued call.
  lemma {:induction false} SweepSaysOnce(s: State, order: seq<ActionId>, now: Time, a: ActionId, x: Sent)
    requires forall b <- s.queue :: s.queue[b].actionid == b
    requires x in NewlySent(s, Sweep(s, order, now)) && x.actionid == a
    ensures a in s.queue && Expired(s.cfg, s.queue[a], now)
    ensures x.to == s.queue[a].identity && x.kind.Answer? && x.body == Raised(a, TimeoutReason(s.cfg, s.queue[a], now))
    ensures a !in Sweep(s, order, now).queue
    decreases |order|
  {
    if order != [] {
      var t := SweepItem(s, order[0], now);
      SweepItemFrame(s, order[0], now);
      SweepOnlyAdds(t, order[1..], now);
      SentSince(s, t, Sweep(s, order, now));
      if x in NewlySent(s, t) {
        assert t.sent == s.sent + NewlySent(s, t);
      } else {
        hide SweepItem;
        SweepSaysOnce(t, order[1..], now, a, x);
        assert t.queue[a] == s.queue[a];
      }
    }
  }

  lemma ReasonsDiffer(a: ActionId, r: Reason, q: Reason)
    requires Raised(a, r) == Raised(a, q)
    ensures r == q
  {
    ReadException(a, Explanation(r), Code(r));
    ReadException(a, Explanation(q), Code(q));
    assert Explanation(r) == Explanation(q);
    assert |Explanation(WrongCall)| == 20 && |Explanation(NoModules)| == 16 && |Explanation(AllBusy)| == 20;
    assert |Explanation(ProcessTimeout)| == 15 && |Explanation(GlobalTimeout)| == 34;
    assert Explanation(WrongCall)[0] != Explanation(AllBusy)[0];
  }

  // ---------- busy fabrics ----------

  // A fabric that can place a call on no module refuses with the code for busy modules, and the
  // broker that sent the call reads that code.
  lemma RefusalIsRead(a: ActionId)
    requires |a| >= 5
    ensures var tree := Raised(a, NoModules);
      && CheckCommand(tree) == Some(VException) && CheckActionid(tree) == Some(a)
      && ToInt(BodyInt(tree, "exception")) == MODULES_BUSY
  {
    ReadException(a, Explanation(NoModules), Code(NoModules));
  }

  // Meant to place the call anew, that message changes nothing, because the call is still routed:
  // the caller hears of it only when the sweep finds the call too old.
  lemma BusyFabricIsIgnored(s: State, m: Msg, order: seq<ActionId>, now: Time)
    requires !m.local && m.actionid in s.queue && s.queue[m.actionid].local
    requires s.queue[m.actionid].routedVia.Some? && ToInt(BodyInt(m.body, "exception")) == MODULES_BUSY
    ensures ProcessException(s, m, order, now) == s
  {
    assert s.queue == s.queue[m.actionid := s.queue[m.actionid]];
  }
}
