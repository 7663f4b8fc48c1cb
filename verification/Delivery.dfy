/** Which answer goes to which caller: a reply is passed on as it was received, and an exception of the
    broker's own goes out only with a refused CALL or from a sweep. */
module Delivery {
  import opened Wrappers
  import opened Text
  import opened Messages
  import opened Tables
  import opened Steps
  import opened Registry
  import opened Queue
  import opened Replies
  import opened Admission

  // ---------- a pass over the queue ----------

  // What was said since: these messages, and after them only calls handed on
  ghost predicate Said(s: State, t: State, messages: seq<Sent>) {
    s.sent + messages <= t.sent && forall k | |s.sent| + |messages| <= k < |t.sent| :: t.sent[k].kind.CallOut?
  }

  // The module is as it was, or was idle and has since been given a call.
  ghost predicate SameOrGiven(s: State, t: State, id: Id) {
    id in s.modules && id in t.modules &&
    (t.modules[id] == s.modules[id] || (s.modules[id].state.Idle? && GivenSince(s, t, id)))
  }

  ghost predicate GivenSince(s: State, t: State, id: Id) {
    && id in s.modules && id in t.modules && t.modules[id] == s.modules[id].(state := Busy)
    && exists k | |s.sent| <= k < |t.sent| :: t.sent[k].to == id && t.sent[k].kind.CallOut?
  }

  ghost predicate HandsOn(s: State, t: State) {
    Said(s, t, []) && t.modules.Keys == s.modules.Keys && forall id <- s.modules :: SameOrGiven(s, t, id)
  }

  lemma HandsOnTwice(s: State, t: State, u: State)
    requires HandsOn(s, t) && HandsOn(t, u)
    ensures HandsOn(s, u)
  {
    forall id <- s.modules ensures SameOrGiven(s, u, id) {
      assert SameOrGiven(s, t, id) && SameOrGiven(t, u, id);
      if t.modules[id] != s.modules[id] {
        var k :| |s.sent| <= k < |t.sent| && t.sent[k].to == id && t.sent[k].kind.CallOut?;
        assert u.sent[k] == t.sent[k];
      }
    }
  }

  lemma NothingHandsOn(s: State, t: State)
    requires t.sent == s.sent && t.modules == s.modules
    ensures HandsOn(s, t)
  {
    assert forall id <- s.modules :: SameOrGiven(s, t, id);
  }

  lemma OutcomeHandsOn(s: State, c: Call, p: Placed, now: Time)
    requires if c.routedVia.Some? then p == Placed(s, c, 0) else Outcome(s, c, p, now)
    ensures HandsOn(s, p.st)
  {
    hide CheckInterface, Bind, Chosen, NobodyToGive, CanRelay, FabricOf, HandsOn, Handed, Relayed;
    var b := Bind(s, c);
    if c.routedVia.Some? {
      NothingHandsOn(s, p.st);
    } else if id :| Handed(s, b, p, id, now) {
      HandedHandsOn(s, b, p, id, now);
    } else if id :| Relayed(s, b, p, id, now) {
      HandedHandsOn(s, b, p, id, now);
    } else {
      NothingHandsOn(s, p.st);
    }
  }

  lemma HandedHandsOn(s: State, b: Call, p: Placed, id: Id, now: Time)
    requires Handed(s, b, p, id, now) || Relayed(s, b, p, id, now)
    ensures HandsOn(s, p.st)
  {
    hide Chosen, NobodyToGive, CanRelay, FabricOf;
    assert p.st.sent[|s.sent|].kind.CallOut? && p.st.sent[|s.sent|].to == id;
    assert forall x <- s.modules :: SameOrGiven(s, p.st, x);
  }

  lemma PlaceQueuedHandsOn(s: State, a: ActionId, now: Time)
    requires a in s.queue
    ensures HandsOn(s, PlaceQueued(s, a, now).st)
  {
    hide PlaceCall, Outcome;
    PlaceCallOutcome(s, s.queue[a], now);
    OutcomeHandsOn(s, s.queue[a], PlaceCall(s, s.queue[a], now), now);
    SameMessages(s, PlaceCall(s, s.queue[a], now).st, PlaceQueued(s, a, now).st);
  }

  lemma SameMessages(s: State, t: State, u: State)
    requires HandsOn(s, t) && u.sent == t.sent && u.modules == t.modules
    ensures HandsOn(s, u)
  {
    assert forall x <- s.modules :: SameOrGiven(s, t, x) ==> SameOrGiven(s, u, x);
  }

  lemma {:induction false} DrainHandsOn(s: State, order: seq<ActionId>, now: Time)
    ensures HandsOn(s, Drain(s, order, now))
    decreases |order|
  {
    hide PlaceQueued, HandsOn;
    NothingHandsOn(s, s);
    if order != [] && s.up {
      if order[0] in s.queue {
        var p := PlaceQueued(s, order[0], now);
        PlaceQueuedHandsOn(s, order[0], now);
        if p.rc == 0 {
          DrainHandsOn(p.st, order[1..], now);
          HandsOnTwice(s, p.st, Drain(p.st, order[1..], now));
        }
      } else {
        DrainHandsOn(s, order[1..], now);
      }
    }
  }

  // ---------- one reply ----------

  // The caller is sent this body as the answer to its call, and the call is forgotten.
  ghost predicate PassedOn(s: State, t: State, c: Call, a: ActionId, body: Value) {
    && Said(s, t, [Sent(c.identity, |c.identity| <= LOCAL_ID_LENGTH || c.identity in s.fabs, Answer, a, body)])
    && t.queue.Keys == s.queue.Keys - {a} && t.dropped == s.dropped
  }

  // The call is forgotten and its caller is told nothing.
  ghost predicate Forgotten(s: State, t: State, c: Call, a: ActionId, why: Why) {
    && Said(s, t, [])
    && t.queue.Keys == s.queue.Keys - {a} && t.dropped == s.dropped + [Drop(a, c.identity, why)]
  }

  // The module that answered is idle again, or has been given its next call; if it is to be restarted, it is.
  // Another module can only have been given a call.
  ghost predicate BackAtWork(s: State, t: State, id: Id) {
    if id !in s.modules then t.modules == s.modules && t.commands == s.commands
    else if s.modules[id].needRestart then
      t.modules == s.modules && t.commands == s.commands + [Restart(s.modules[id].pid)]
    else
      && t.commands == s.commands && t.modules.Keys == s.modules.Keys
      && (t.modules[id] == s.modules[id].(state := Idle) || GivenSince(s, t, id))
      && forall x <- s.modules | x != id :: SameOrGiven(s, t, x)
  }

  lemma ReleaseWorks(s: State, id: Id, order: seq<ActionId>, now: Time)
    ensures var t := Release(s, id, order, now); Said(s, t, []) && BackAtWork(s, t, id)
  {
    ReleaseFrame(s, id, order, now);
    if id in s.modules && !s.modules[id].needRestart {
      var s1, t := SetState(s, id, Idle), Release(s, id, order, now);
      DrainHandsOn(s1, order, now);
      DrainFrame(s1, order, now);
      hide Drain;
      assert SameOrGiven(s1, t, id);
      if t.modules[id] != s1.modules[id] { assert GivenSince(s1, t, id) && GivenSince(s, t, id); }
      forall x <- s.modules | x != id ensures SameOrGiven(s, t, x) {
        assert SameOrGiven(s1, t, x) && s1.modules[x] == s.modules[x];
      }
    }
  }

  // The answer of a module
  ghost predicate ModuleAnswered(s: State, t: State, c: Call, m: Msg) {
    && BackAtWork(s, t, m.identity)
    && if c.local || c.identity in s.fabs then PassedOn(s, t, c, m.actionid, m.body)
       else Forgotten(s, t, c, m.actionid, FabricGone)
  }

  lemma LocalReplyAnswers(s: State, c: Call, m: Msg, order: seq<ActionId>, now: Time)
    requires m.actionid in s.queue
    ensures ModuleAnswered(s, LocalReply(s, c, m, order, now), c, m)
  {
    var s1, t := Finish(s, c, m), LocalReply(s, c, m, order, now);
    ReleaseWorks(s1, m.identity, order, now);
    ReleaseFrame(s1, m.identity, order, now);
    hide Release;
    assert s1.modules == s.modules && s1.commands == s.commands;
    BackFrom(s, s1, t, m.identity);
    if c.local || c.identity in s.fabs {
      var x := Sent(c.identity, |c.identity| <= LOCAL_ID_LENGTH || c.identity in s.fabs, Answer, m.actionid, m.body);
      assert s1.sent == s.sent + [x] && s1.sent + [] == s1.sent;
    }
  }

  lemma BackFrom(s: State, s1: State, t: State, id: Id)
    requires s1.modules == s.modules && s1.commands == s.commands && s.sent <= s1.sent && BackAtWork(s1, t, id)
    ensures BackAtWork(s, t, id)
  {
    hide Raised;
    assert GivenSince(s1, t, id) ==> GivenSince(s, t, id);
    if id in s.modules && !s.modules[id].needRestart {
      forall x <- s.modules | x != id ensures SameOrGiven(s, t, x) {
        assert SameOrGiven(s1, t, x);
        assert GivenSince(s1, t, x) ==> GivenSince(s, t, x);
      }
    }
  }

  // The answer of another fabric
  ghost predicate FabricAnswered(s: State, t: State, c: Call, m: Msg) {
    && t.modules == s.modules && t.commands == s.commands
    && if c.local then PassedOn(s, t, c, m.actionid, m.body) else Forgotten(s, t, c, m.actionid, FabricToFabric)
  }

  // A fabric that could not place the call: it stays queued - a call that is with a fabric or a module is left
  // alone, any other one is placed.
  ghost predicate StaysQueued(s: State, t: State, c: Call, a: ActionId) {
    && Said(s, t, []) && t.queue.Keys == s.queue.Keys && t.dropped == s.dropped && t.commands == s.commands
    && (c.routedVia.Some? ==> t == s.(fabs := t.fabs))
  }

  predicate SaysBusy(m: Msg) { ToInt(BodyInt(m.body, "exception")) == MODULES_BUSY }

  // What becomes of the queued call that the reply m is for, case by case
  ghost predicate IsAnswered(s: State, t: State, verb: Verb, m: Msg) {
    m.actionid in s.queue &&
    var c := s.queue[m.actionid];
    if m.local then
      if verb.VException? && c.local && m.identity !in s.modules then t == s
      else ModuleAnswered(s, t, c, m)
    else if verb.VException? && c.local && SaysBusy(m) then StaysQueued(s, t, c, m.actionid)
    else FabricAnswered(s, t, c, m)
  }

  lemma FabricReplyAnswers(s: State, c: Call, m: Msg)
    requires m.actionid in s.queue
    ensures FabricAnswered(s, FabricReply(s, c, m), c, m)
  {}

  lemma BusyStaysQueued(s: State, a: ActionId, now: Time)
    requires a in s.queue
    ensures StaysQueued(s, PlaceQueued(s, a, now).st, s.queue[a], a)
  {
    PlaceQueuedHandsOn(s, a, now);
    PlaceCallFrame(s, s.queue[a], now);
    if s.queue[a].routedVia.Some? {
      assert s.queue == s.queue[a := s.queue[a]];
    } else {
      hide PlaceCall;
    }
  }

  lemma ProcessedIsAnswered(s: State, verb: Verb, m: Msg, e: Event, now: Time)
    requires e.Arrive? && (verb.VResult? || verb.VException?) && m.actionid in s.queue
    ensures IsAnswered(s, ProcessCommand(s, verb, m, e, now), verb, m)
  {
    hide LocalReply, FabricReply, PlaceQueued, BodyInt, ModuleAnswered, FabricAnswered, StaysQueued;
    var c := s.queue[m.actionid];
    LocalReplyAnswers(s, c, m, e.order, now);
    FabricReplyAnswers(s, c, m);
    BusyStaysQueued(s, m.actionid, now);
  }

  lemma AnsweredAlive(s: State, s1: State, t: State, verb: Verb, m: Msg)
    requires s1 == s.(fabs := s1.fabs) && s1.fabs.Keys == s.fabs.Keys && !m.local && IsAnswered(s1, t, verb, m)
    ensures IsAnswered(s, t, verb, m)
  {
    hide BodyInt;
  }

  // A RESULT or EXCEPTION for a queued call. If it comes from a module, its body goes to the caller, a module
  // or a fabric that is still known - unless it is an exception from an unknown module to a module, which is
  // ignored. If it comes from a fabric, its body goes to the calling module - unless it is the exception that
  // says that all modules are busy. The call leaves the queue, and the module is back at work.
  lemma ReplyIsPassedOn(s: State, e: Event, verb: Verb, m: Msg, now: Time)
    requires s.up && e.Arrive? && Parse(e.local, e.identity, e.body) == Some((verb, m))
    requires (verb.VResult? || verb.VException?) && m.actionid in s.queue
    ensures m.identity == e.identity && m.local == e.local && m.body == e.body
    ensures IsAnswered(s, Step(s, e, now), verb, m)
  {
    hide ProcessCommand, IsAnswered;
    var s1 := if e.local then s else MarkAlive(s, e.identity);
    ProcessedIsAnswered(s1, verb, m, e, now);
    if !e.local { AnsweredAlive(s, s1, Step(s, e, now), verb, m); }
  }

  // ---------- every answer ----------

  // x hands the body of this very reply to the caller of the queued call that it is for.
  ghost predicate RepliesTo(s: State, t: State, e: Event, x: Sent) {
    && x.actionid in s.queue && x.to == s.queue[x.actionid].identity && x.actionid !in t.queue
    && CarriesReply(e, x.actionid, x.body)
  }

  // x tells the caller of a queued call that the call has expired, and why.
  ghost predicate TellsTimeout(s: State, t: State, e: Event, now: Time, x: Sent) {
    && e.SweepTimer? && x.actionid in s.queue && x.to == s.queue[x.actionid].identity && x.actionid !in t.queue
    && Expired(s.cfg, s.queue[x.actionid], now)
    && x.body == Raised(x.actionid, TimeoutReason(s.cfg, s.queue[x.actionid], now))
  }

  // x refuses this very CALL, for the reason that the CALL is refused for.
  ghost predicate RefusesCall(s: State, t: State, e: Event, now: Time, x: Sent) {
    e.Arrive? &&
    match Parse(e.local, e.identity, e.body)
    case None => false
    case Some((verb, m)) =>
      && verb.VCall? && m.actionid == x.actionid && m.identity == x.to && IsHandled(s, t, m, now)
      && exists r :: x.body == Raised(x.actionid, r) && Refused(s, t, x.to, x.actionid, r)
  }

  ghost predicate Justified(s: State, t: State, e: Event, now: Time, x: Sent) {
    x.kind.Answer? ==> RepliesTo(s, t, e, x) || TellsTimeout(s, t, e, now, x) || RefusesCall(s, t, e, now, x)
  }

  ghost predicate AllJustified(s: State, t: State, e: Event, now: Time) {
    s.sent <= t.sent && forall k | |s.sent| <= k < |t.sent| :: Justified(s, t, e, now, t.sent[k])
  }

  lemma NoAnswers(s: State, t: State, e: Event, now: Time)
    requires t.sent == s.sent || exists x :: t.sent == s.sent + [x] && !x.kind.Answer?
    ensures AllJustified(s, t, e, now)
  {}

  lemma CallJustified(s: State, e: Event, m: Msg, now: Time)
    requires s.up && e.Arrive? && Parse(e.local, e.identity, e.body) == Some((VCall, m))
    ensures AllJustified(s, Step(s, e, now), e, now)
  {
    var s1, t := if e.local then s else MarkAlive(s, e.identity), Step(s, e, now);
    hide ProcessCall, AllJustified, IsHandled;
    if t.up {
      CallIsHandled(s, e, m, now);
      HandledJustified(s, t, e, m, now);
    } else {
      CrashSaysNothing(s1, m, now);
      NoAnswers(s, t, e, now);
    }
  }

  lemma CrashSaysNothing(s: State, m: Msg, now: Time)
    requires s.up && !ProcessCall(s, m, now).up
    ensures ProcessCall(s, m, now).sent == s.sent
  {
    hide PlaceCall, Outcome;
    var c := CallOf(m, now);
    if c.Some? {
      PlaceCallOutcome(s, c.value, now);
      OutcomeCrash(s, c.value, PlaceCall(s, c.value, now), now);
    }
  }

  lemma OutcomeCrash(s: State, c: Call, p: Placed, now: Time)
    requires s.up && !p.st.up && (c.routedVia.None? ==> Outcome(s, c, p, now)) && (c.routedVia.Some? ==> p == Placed(s, c, 0))
    ensures p.st.sent == s.sent
  {
    hide Bind, CheckInterface, Chosen, NobodyToGive, CanRelay, FabricOf;
  }

  // A handled CALL says one thing at most.
  lemma HandledSaysOne(s: State, t: State, m: Msg, now: Time)
    requires IsHandled(s, t, m, now)
    ensures t.sent == s.sent || exists x :: t.sent == s.sent + [x]
    ensures t.sent != s.sent && t.sent[|s.sent|].kind.Answer? ==>
      exists r :: Refused(s, t, m.identity, m.actionid, r)
  {
    hide BodyString, BodyInt, CheckInterface, NobodyToGive, Chosen, FabricOf, IsIdle, Raised;
  }

  lemma HandledJustified(s: State, t: State, e: Event, m: Msg, now: Time)
    requires e.Arrive? && Parse(e.local, e.identity, e.body) == Some((VCall, m)) && IsHandled(s, t, m, now)
    ensures AllJustified(s, t, e, now)
  {
    hide Parse, IsHandled, RepliesTo, TellsTimeout;
    HandledSaysOne(s, t, m, now);
    if t.sent != s.sent && t.sent[|s.sent|].kind.Answer? {
      var r :| Refused(s, t, m.identity, m.actionid, r);
      var x := t.sent[|s.sent|];
      assert x.body == Raised(x.actionid, r) && Refused(s, t, x.to, x.actionid, r);
      assert RefusesCall(s, t, e, now, x);
    } else {
      NoAnswers(s, t, e, now);
    }
  }

  lemma ReplyJustified(s: State, e: Event, verb: Verb, m: Msg, now: Time)
    requires s.up && e.Arrive? && Parse(e.local, e.identity, e.body) == Some((verb, m))
    requires (verb.VResult? || verb.VException?) && m.actionid in s.queue
    ensures AllJustified(s, Step(s, e, now), e, now)
  {
    hide Step, IsAnswered, AllJustified;
    ReplyIsPassedOn(s, e, verb, m, now);
    AnsweredJustified(s, Step(s, e, now), e, verb, m, now);
  }

  lemma AnsweredJustified(s: State, t: State, e: Event, verb: Verb, m: Msg, now: Time)
    requires IsAnswered(s, t, verb, m) && CarriesReply(e, m.actionid, m.body)
    ensures AllJustified(s, t, e, now)
  {
    hide BodyInt, BackAtWork, CarriesReply, TellsTimeout, RefusesCall;
    if PassedOn(s, t, s.queue[m.actionid], m.actionid, m.body) {
      assert RepliesTo(s, t, e, t.sent[|s.sent|]);
    }
  }

  lemma {:induction false} PollAsksOnly(s: State, order: seq<Polled>)
    ensures var t := Poll(s, order); s.sent <= t.sent && forall k | |s.sent| <= k < |t.sent| :: t.sent[k].kind.Ask?
    decreases |order|
  {
    if order != [] {
      PollItemAsks(s, order[0]);
      hide PollItem;
      PollAsksOnly(PollItem(s, order[0]), order[1..]);
    }
  }

  lemma PollItemAsks(s: State, q: Polled)
    ensures var t := PollItem(s, q); s.sent <= t.sent && forall k | |s.sent| <= k < |t.sent| :: t.sent[k].kind.Ask?
  {}

  lemma SweepJustified(s: State, e: Event, now: Time)
    requires QueueOk(s) && e.SweepTimer?
    ensures AllJustified(s, Sweep(s, e.order, now), e, now)
  {
    hide CallOk, Sweep, RepliesTo, RefusesCall;
    var t := Sweep(s, e.order, now);
    SweepOnlyAdds(s, e.order, now);
    forall k | |s.sent| <= k < |t.sent| ensures Justified(s, t, e, now, t.sent[k]) {
      assert t.sent[k] == NewlySent(s, t)[k - |s.sent|];
      SweepSaysOnce(s, e.order, now, t.sent[k].actionid, t.sent[k]);
    }
  }

  lemma SaysNoAnswer(s: State, verb: Verb, m: Msg, e: Event, now: Time)
    requires RegistryOk(s) && e.Arrive? && !verb.VCall? && (verb.VResult? || verb.VException? ==> m.actionid !in s.queue)
    ensures var t := ProcessCommand(s, verb, m, e, now); t.sent == s.sent || exists x :: t.sent == s.sent + [x] && !x.kind.Answer?
  {
    hide RegistryOk, ProcessIntroduce, ProcessIfaceList;
    var t := ProcessCommand(s, verb, m, e, now);
    IntroduceKeepsRegistry(s, m, e.known, e.keys);
    IfaceListKeepsRegistry(s, m);
    if t.sent != s.sent { assert t.sent == s.sent + [t.sent[|s.sent|]]; }
  }

  // Every answer an event sends is the body of that very RESULT or EXCEPTION, and goes to the caller of the
  // queued call it is for; or it refuses that very CALL; or it tells the caller of an expired call why.
  lemma StepJustified(s: State, e: Event, now: Time)
    requires s.up && RegistryOk(s) && QueueOk(s)
    ensures AllJustified(s, Step(s, e, now), e, now)
  {
    hide RegistryOk, QueueOk, ProcessCommand, Sweep, Poll, Justified;
    match e {
      case Arrive(local, identity, body, _, _, _) =>
        match Parse(local, identity, body) {
          case None =>
          case Some((verb, m)) =>
            if verb.VCall? {
              CallJustified(s, e, m, now);
            } else if (verb.VResult? || verb.VException?) && m.actionid in s.queue {
              ReplyJustified(s, e, verb, m, now);
            } else {
              var s1 := if local then s else MarkAlive(s, identity);
              AliveQuiet(s, identity);
              SaysNoAnswer(s1, verb, m, e, now);
              NoAnswers(s, Step(s, e, now), e, now);
            }
        }
      case SweepTimer(order) => SweepJustified(s, e, now);
      case PollTimer(order) => PollAsksOnly(s, order); OnlyAsks(s, Poll(s, order), e, now);
      case Beacon(id, connected) => NoAnswers(s, OnBeacon(s, id, connected), e, now);
      case FromProcman(f, order) => NoAnswers(s, OnProcman(s, f, order), e, now);
    }
  }

  lemma AliveQuiet(s: State, id: Id)
    requires RegistryOk(s)
    ensures RegistryOk(MarkAlive(s, id))
  {
    assert MarkAlive(s, id).fabs.Keys == s.fabs.Keys;
  }

  lemma OnlyAsks(s: State, t: State, e: Event, now: Time)
    requires s.sent <= t.sent && forall k | |s.sent| <= k < |t.sent| :: t.sent[k].kind.Ask?
    ensures AllJustified(s, t, e, now)
  {}

  // ---------- runs ----------

  // Message j of the log was sent with event k, and that event justifies it.
  ghost predicate JustifiedAt(cfg: Config, ticks: seq<Tick>, j: int, k: int) {
    0 <= k < |ticks| &&
    var s, t := Run(cfg, ticks[..k]), Run(cfg, ticks[..k + 1]);
    |s.sent| <= j < |t.sent| <= |Run(cfg, ticks).sent| && t.sent[j] == Run(cfg, ticks).sent[j]
    && Justified(s, t, ticks[k].ev, ticks[k].now, t.sent[j])
  }

  // Over any run, whatever peers send: every answer in the log was sent with an event that justifies it. So an
  // exception of the broker's own comes only from refusing that very CALL or from a sweep - or it was received as
  // a reply itself.
  lemma {:induction false} EveryAnswerIsJustified(cfg: Config, ticks: seq<Tick>, j: nat) returns (k: nat)
    requires j < |Run(cfg, ticks).sent|
    ensures JustifiedAt(cfg, ticks, j, k)
  {
    hide Step, RegistryOk, CallOk, Justified;
    var before, last := ticks[..|ticks| - 1], ticks[|ticks| - 1];
    var s := Run(cfg, before);
    RunKeepsCalls(cfg, before);
    if s.up { StepJustified(s, last.ev, last.now); } else { DownDoesNothing(s, last); }
    assert ticks[..|before| + 1] == ticks;
    if j < |s.sent| {
      k := EveryAnswerIsJustified(cfg, before, j);
      assert ticks[..k] == before[..k] && ticks[..k + 1] == before[..k + 1] && ticks[k] == before[k];
    } else {
      k := |before|;
    }
  }
}
