/** Who is working on what: queued calls that are with a local module, and busy modules.
    These hold when peers follow the protocol; the assumptions are spelled out in `Fair`. */
module InFlight {
  import opened Wrappers
  import opened Messages
  import opened Tables
  import opened Steps
  import opened Registry
  import opened Queue

  predicate OnModule(c: Call, id: Id) { c.procTs != 0 && c.routedVia == Some(id) }

  // ---------- assumptions about the peers ----------

  // Answers come only from the module or fabric the call was sent to.
  predicate FairReply(s: State, m: Msg) {
    m.actionid in s.queue ==>
      var c := s.queue[m.actionid];
      if m.local then OnModule(c, m.identity) else c.procTs == 0 && c.routedVia == Some(m.identity)
  }

  // A connection introduces itself once, under a fresh identity, and there is one module per
  // process; no process that has been told to restart introduces itself again.
  ghost predicate FairIntroduce(s: State, m: Msg) {
    && m.identity !in s.modules
    && (forall a <- s.queue :: s.queue[a].routedVia != Some(m.identity))
    && (forall id <- s.modules :: s.modules[id].pid != GetPid(m.body))
    && Restart(GetPid(m.body)) !in s.commands
  }

  ghost predicate FairMessage(s: State, verb: Verb, m: Msg) {
    match verb
    case VResult => FairReply(s, m)
    case VException => FairReply(s, m)
    case VCall => m.actionid !in s.queue     // action ids are unique
    case VIntroduce => FairIntroduce(s, m)
    case _ => true
  }

  // The process manager reports the removal only of a process it was told to restart.
  ghost predicate Fair(s: State, e: Event) {
    match e
    case Arrive(local, identity, body, _, _, _) => (
      match Parse(local, identity, body)
      case None => true
      case Some((verb, m)) => FairMessage(s, verb, m))
    case FromProcman(f, _) => f.Removed? ==> Restart(f.pid) in s.commands
    case _ => true
  }

  // ---------- the invariant ----------

  // The module a call is with is registered, and busy.
  ghost predicate InFlightIsBusy(s: State) {
    forall a <- s.queue | s.queue[a].procTs != 0 ::
      s.queue[a].routedVia.Some? &&
      var id := s.queue[a].routedVia.value;
      id in s.modules && s.modules[id].state.Busy?
  }

  // No two calls are with the same module.
  ghost predicate NoSharing(s: State) {
    forall a, b | a in s.queue && b in s.queue && a != b && s.queue[a].procTs != 0 && s.queue[b].procTs != 0 ::
      s.queue[a].routedVia != s.queue[b].routedVia
  }

  ghost predicate WorksOn(s: State, id: Id, a: ActionId) { a in s.queue && OnModule(s.queue[a], id) }

  // Outside debug mode, a busy module that is not to be restarted has a call.
  ghost predicate BusyHasCall(s: State) {
    !s.cfg.debug ==>
      forall id <- s.modules | s.modules[id].state.Busy? && !s.modules[id].needRestart ::
        exists a :: WorksOn(s, id, a)
  }

  ghost predicate RestartNotIdle(s: State) {
    forall id <- s.modules :: s.modules[id].needRestart ==> !s.modules[id].state.Idle?
  }

  ghost predicate PidsDistinct(s: State) {
    forall i, j | i in s.modules && j in s.modules && i != j :: s.modules[i].pid != s.modules[j].pid
  }

  // Once the process manager has been told to restart a process, its module has no call and
  // will not get one: it is not idle.
  ghost predicate Spent(s: State, pid: int) {
    forall id <- s.modules | s.modules[id].pid == pid ::
      !s.modules[id].state.Idle? && forall a <- s.queue :: !OnModule(s.queue[a], id)
  }

  ghost predicate RestartedAreSpent(s: State) {
    forall c <- s.commands | c.Restart? :: Spent(s, c.pid)
  }

  ghost predicate FlightOk(s: State) {
    && InFlightIsBusy(s) && NoSharing(s) && BusyHasCall(s)
    && RestartNotIdle(s) && PidsDistinct(s) && RestartedAreSpent(s)
  }

  ghost predicate Sound(s: State) { RegistryOk(s) && CallsOk(s) && FlightOk(s) }

  // ---------- placing calls ----------

  // Giving call a to module id, when the module was idle and a was nowhere
  ghost predicate GivenTo(s: State, t: State, a: ActionId, id: Id) {
    && id in s.modules && s.modules[id].state.Idle?
    && t.modules == s.modules[id := s.modules[id].(state := Busy)]
    && (a in s.queue ==> s.queue[a].procTs == 0)
    && a in t.queue && OnModule(t.queue[a], id)
    && t.queue.Keys == s.queue.Keys + {a}
    && (forall b <- s.queue | b != a :: t.queue[b] == s.queue[b])
    && t.commands == s.commands && t.cfg == s.cfg
  }

  lemma GivenToKeepsFlight(s: State, t: State, a: ActionId, id: Id)
    requires FlightOk(s) && GivenTo(s, t, a, id)
    ensures FlightOk(t)
  {
    hide Send;
    assert forall b <- s.queue :: !OnModule(s.queue[b], id);
    assert BusyHasCall(t) by {
      assert WorksOn(t, id, a);
      forall x <- t.modules | !t.cfg.debug && t.modules[x].state.Busy? && !t.modules[x].needRestart && x != id
        ensures exists b :: WorksOn(t, x, b)
      {
        var b :| WorksOn(s, x, b);
        assert WorksOn(t, x, b);
      }
    }
  }

  // Changes that leave modules and the calls on them alone
  lemma SameFlight(s: State, t: State)
    requires FlightOk(s)
    requires t.modules == s.modules && t.cfg == s.cfg
    requires forall c <- t.commands | c.Restart? :: c in s.commands
    requires forall a <- t.queue | t.queue[a].procTs != 0 :: a in s.queue && s.queue[a].procTs != 0
    requires forall a <- s.queue | s.queue[a].procTs != 0 ::
      a in t.queue && t.queue[a].procTs == s.queue[a].procTs && t.queue[a].routedVia == s.queue[a].routedVia
    ensures FlightOk(t)
  {
    forall id <- t.modules | !t.cfg.debug && t.modules[id].state.Busy? && !t.modules[id].needRestart
      ensures exists a :: WorksOn(t, id, a)
    {
      var a :| WorksOn(s, id, a);
      assert WorksOn(t, id, a);
    }
    forall c <- t.commands | c.Restart? ensures Spent(t, c.pid) {
      assert Spent(s, c.pid);
    }
  }

  ghost predicate Took(s: State, p: Placed, id: Id) {
    && id in s.modules && s.modules[id].state.Idle?
    && p.st.modules == s.modules[id := s.modules[id].(state := Busy)]
    && OnModule(p.call, id)
  }

  // What placing a call that is nowhere does to modules
  ghost predicate Effect(s: State, p: Placed) {
    && p.st.queue == s.queue && p.st.commands == s.commands && p.st.cfg == s.cfg
    && ((p.st.modules == s.modules && p.call.procTs == 0) || exists id :: Took(s, p, id))
  }

  lemma PlaceCallEffect(s: State, c: Call, now: Time)
    requires c.routedVia.None? && c.procTs == 0
    ensures Effect(s, PlaceCall(s, c, now)) && PlaceCall(s, c, now).call.actionid == c.actionid
  {
    PlaceCallOutcome(s, c, now);
    var b, p := Bind(s, c), PlaceCall(s, c, now);
    if id :| Handed(s, b, p, id, now) { assert Took(s, p, id); }
  }

  lemma PutKeepsFlight(s: State, t: State, p: Placed, a: ActionId)
    requires FlightOk(s) && Effect(s, p)
    requires a in s.queue ==> s.queue[a].procTs == 0
    requires t.modules == p.st.modules && t.commands == s.commands && t.cfg == s.cfg
    requires t.queue == s.queue[a := p.call]
    ensures FlightOk(t)
  {
    if id :| Took(s, p, id) {
      GivenToKeepsFlight(s, t, a, id);
    } else {
      SameFlight(s, t);
    }
  }

  lemma PlaceQueuedKeepsFlight(s: State, a: ActionId, now: Time)
    requires Sound(s) && a in s.queue
    ensures Sound(PlaceQueued(s, a, now).st)
  {
    var c := s.queue[a];
    PlaceQueuedKeeps(s, a, now);
    if c.routedVia.None? {
      PlaceCallEffect(s, c, now);
      PutKeepsFlight(s, PlaceQueued(s, a, now).st, PlaceCall(s, c, now), a);
    } else {
      SameFlight(s, PlaceQueued(s, a, now).st);
    }
  }

  lemma {:induction false} DrainKeepsFlight(s: State, order: seq<ActionId>, now: Time)
    requires Sound(s)
    ensures Sound(Drain(s, order, now))
    decreases |order|
  {
    if order != [] && s.up {
      if order[0] in s.queue {
        PlaceQueuedKeeps(s, order[0], now);
        PlaceQueuedKeepsFlight(s, order[0], now);
        DrainKeepsFlight(PlaceQueued(s, order[0], now).st, order[1..], now);
      } else {
        DrainKeepsFlight(s, order[1..], now);
      }
    }
  }

  lemma AdmitKeepsFlight(s: State, m: Msg, p: Placed)
    requires FlightOk(s) && Effect(s, p)
    requires p.call.actionid == m.actionid && m.actionid !in s.queue
    requires p.rc == -1 || p.call.routedVia.None? ==> p.st.modules == s.modules
    ensures Admit(m, p).up ==> FlightOk(Admit(m, p))
  {
    var t := Admit(m, p);
    if t.up {
      if t.queue == s.queue { SameFlight(s, t); } else { PutKeepsFlight(s, t, p, m.actionid); }
    }
  }

  lemma CallKeepsFlight(s: State, m: Msg, now: Time)
    requires Sound(s) && m.actionid !in s.queue
    ensures ProcessCall(s, m, now).up ==> FlightOk(ProcessCall(s, m, now))
  {
    match CallOf(m, now) {
      case None => SameFlight(s, ProcessCall(s, m, now));
      case Some(c) =>
        PlaceCallEffect(s, c, now);
        PlaceCallFrame(s, c, now);
        AdmitKeepsFlight(s, m, PlaceCall(s, c, now));
    }
  }

  // ---------- answers ----------

  // The call a is answered by the module it was on.
  lemma FinishedKeepsFlight(s: State, t: State, a: ActionId, id: Id)
    requires FlightOk(s) && a in s.queue && OnModule(s.queue[a], id)
    requires t.queue == s.queue - {a} && t.cfg == s.cfg
    requires id in s.modules ==>
      if s.modules[id].needRestart
      then t.modules == s.modules && t.commands == s.commands + [Restart(s.modules[id].pid)]
      else t.modules == s.modules[id := s.modules[id].(state := Idle)] && t.commands == s.commands
    requires id !in s.modules ==> t.modules == s.modules && t.commands == s.commands
    ensures FlightOk(t)
  {
    assert forall b <- t.queue :: !OnModule(t.queue[b], id);
    assert BusyHasCall(t) by {
      forall x <- t.modules | !t.cfg.debug && t.modules[x].state.Busy? && !t.modules[x].needRestart
        ensures exists b :: WorksOn(t, x, b)
      {
        assert x != id;
        var b :| WorksOn(s, x, b);
        assert WorksOn(t, x, b);
      }
    }
    assert RestartedAreSpent(t) by {
      forall c <- t.commands | c.Restart? ensures Spent(t, c.pid) {
        if c in s.commands { assert Spent(s, c.pid); }
      }
    }
  }

  lemma LocalReplyKeepsFlight(s: State, c: Call, m: Msg, order: seq<ActionId>, now: Time)
    requires Sound(s) && m.actionid in s.queue && c == s.queue[m.actionid] && OnModule(c, m.identity)
    ensures FlightOk(LocalReply(s, c, m, order, now))
  {
    hide Drain, RegistryOk, CallsOk, FlightOk;
    var id := m.identity;
    var s2 := Finish(s, c, m);
    FinishKeeps(s, c, m);
    if id in s2.modules && !s2.modules[id].needRestart {
      var s3 := SetState(s2, id, Idle);
      IdleKeeps(s2, id);
      FinishedKeepsFlight(s, s3, m.actionid, id);
      DrainKeepsFlight(s3, order, now);
    } else {
      FinishedKeepsFlight(s, LocalReply(s, c, m, order, now), m.actionid, id);
    }
  }

  lemma ReplyKeepsFlight(s: State, m: Msg, order: seq<ActionId>, now: Time)
    requires Sound(s) && m.actionid in s.queue && FairReply(s, m)
    ensures FlightOk(ProcessResult(s, m, order, now))
    ensures FlightOk(ProcessException(s, m, order, now))
  {
    hide LocalReply, PlaceQueued;
    var c := s.queue[m.actionid];
    if m.local {
      LocalReplyKeepsFlight(s, c, m, order, now);
    } else {
      PlaceQueuedKeepsFlight(s, m.actionid, now);
      SameFlight(s, FabricReply(s, c, m));
    }
  }

  // ---------- modules coming and going ----------

  lemma NewcomerKeepsFlight(s: State, t: State, id: Id, mod: Module)
    requires FlightOk(s) && id !in s.modules && mod.state.Idle? && !mod.needRestart
    requires forall a <- s.queue :: s.queue[a].routedVia != Some(id)
    requires forall x <- s.modules :: s.modules[x].pid != mod.pid
    requires Restart(mod.pid) !in s.commands
    requires t.modules == s.modules[id := mod] && t.queue == s.queue && t.cfg == s.cfg
    requires forall c <- t.commands | c.Restart? :: c in s.commands
    ensures FlightOk(t)
  {
    forall x <- t.modules | !t.cfg.debug && t.modules[x].state.Busy? && !t.modules[x].needRestart
      ensures exists a :: WorksOn(t, x, a)
    {
      var a :| WorksOn(s, x, a);
      assert WorksOn(t, x, a);
    }
    forall c <- t.commands | c.Restart? ensures Spent(t, c.pid) {
      assert Spent(s, c.pid);
    }
  }

  lemma FinishIntroduceKeepsFlight(s: State, m: Msg, known: bool, keys: seq<string>)
    requires Sound(s) && FairIntroduce(s, m)
    ensures FlightOk(FinishIntroduce(s, m, known, keys))
  {
    var t := FinishIntroduce(s, m, known, keys);
    FinishIntroduceKeepsRegistry(s, m, known, keys);
    if t.modules == s.modules {
      SameFlight(s, t);
    } else {
      NewcomerKeepsFlight(s, t, m.identity, t.modules[m.identity]);
    }
  }

  // Dropping modules, and with each the call it was on
  lemma ForgetKeepsFlight(s: State, t: State)
    requires FlightOk(s) && t.cfg == s.cfg
    requires forall id <- t.modules :: id in s.modules && t.modules[id] == s.modules[id]
    requires forall a <- t.queue :: a in s.queue && t.queue[a] == s.queue[a]
    requires forall a <- s.queue, id <- t.modules :: OnModule(s.queue[a], id) ==> a in t.queue
    requires forall a <- t.queue, id <- s.modules :: OnModule(t.queue[a], id) ==> id in t.modules
    requires forall c <- t.commands | c.Restart? :: c in s.commands || forall id <- t.modules :: t.modules[id].pid != c.pid
    ensures FlightOk(t)
  {
    forall id <- t.modules | !t.cfg.debug && t.modules[id].state.Busy? && !t.modules[id].needRestart
      ensures exists a :: WorksOn(t, id, a)
    {
      var a :| WorksOn(s, id, a);
      assert WorksOn(t, id, a);
    }
    forall c <- t.commands | c.Restart? ensures Spent(t, c.pid) {
      if c in s.commands { assert Spent(s, c.pid); }
    }
  }

  // Modules and commands as they were, and one call fewer: enough in debug mode
  lemma FewerCalls(s: State, t: State)
    requires FlightOk(s) && s.cfg.debug && t.cfg == s.cfg && t.modules == s.modules && t.commands == s.commands
    requires forall a <- t.queue :: a in s.queue && t.queue[a] == s.queue[a]
    ensures FlightOk(t)
  {
    forall c <- t.commands | c.Restart? ensures Spent(t, c.pid) {
      assert Spent(s, c.pid);
    }
  }

  lemma SweepItemKeepsFlight(s: State, a: ActionId, now: Time)
    requires Sound(s)
    ensures FlightOk(SweepItem(s, a, now))
  {
    hide RegistryOk, NeverRelayed, Without, PurgeStore, Live;
    if a in s.queue && Expired(s.cfg, s.queue[a], now) {
      var t := SweepItem(s, a, now);
      if s.cfg.debug { FewerCalls(s, t); } else { ForgetKeepsFlight(s, t); }
    }
  }

  lemma {:induction false} SweepKeepsFlight(s: State, order: seq<ActionId>, now: Time)
    requires Sound(s)
    ensures FlightOk(Sweep(s, order, now))
    decreases |order|
  {
    if order != [] {
      var t := SweepItem(s, order[0], now);
      SweepItemKeepsFlight(s, order[0], now);
      SweepItemKeepsCalls(s, order[0], now);
      SweepKeepsFlight(t, order[1..], now);
    }
  }

  lemma {:induction false} PollTouchesNoCall(s: State, order: seq<Polled>)
    ensures var t := Poll(s, order);
      t.modules == s.modules && t.queue == s.queue && t.commands == s.commands && t.cfg == s.cfg && t.dropped == s.dropped
    decreases |order|
  {
    if order != [] { PollTouchesNoCall(PollItem(s, order[0]), order[1..]); }
  }

  lemma RestartKeepsBusy(s: State, id: Id)
    requires BusyHasCall(s) && id in s.modules
    ensures BusyHasCall(RestartModule(s, id))
  {
    var t := RestartModule(s, id);
    forall x <- t.modules | !t.cfg.debug && t.modules[x].state.Busy? && !t.modules[x].needRestart
      ensures exists a :: WorksOn(t, x, a)
    {
      var a :| WorksOn(s, x, a);
      assert WorksOn(t, x, a);
    }
  }

  lemma RestartSpends(s: State, id: Id)
    requires FlightOk(s) && id in s.modules
    ensures RestartedAreSpent(RestartModule(s, id))
  {
    hide BusyHasCall;
    var t := RestartModule(s, id);
    forall c <- t.commands | c.Restart? ensures Spent(t, c.pid) {
      if c in s.commands { assert Spent(s, c.pid); }
    }
  }

  lemma RestartModuleKeepsFlight(s: State, id: Id)
    requires FlightOk(s) && id in s.modules
    ensures FlightOk(RestartModule(s, id))
  {
    hide BusyHasCall, RestartedAreSpent;
    RestartKeepsBusy(s, id);
    RestartSpends(s, id);
  }

  lemma ProcmanKeepsFlight(s: State, f: Frame, order: seq<Id>)
    requires Sound(s) && (f.Removed? ==> Restart(f.pid) in s.commands)
    ensures FlightOk(OnProcman(s, f, order))
  {
    var hit := FirstWithPid(s.modules, order, FramePid(f));
    if FramePid(f) != 0 && hit.Some? {
      if f.Removed? {
        assert Spent(s, Restart(f.pid).pid);
        ForgetKeepsFlight(s, RemoveModule(s, hit.value));
      }
      else { RestartModuleKeepsFlight(s, hit.value); }
    }
  }

  // ---------- every handler ----------

  lemma IntroduceKeepsFlight(s: State, m: Msg, known: bool, keys: seq<string>)
    requires Sound(s) && FairMessage(s, VIntroduce, m)
    ensures ProcessIntroduce(s, m, known, keys).up ==> FlightOk(ProcessIntroduce(s, m, known, keys))
  {
    hide FlightOk, FinishIntroduce;
    SameFlight(s, AskPid(s, m));
    FinishIntroduceKeepsFlight(AskPid(s, m), m, known, keys);
  }

  lemma OtherCommandKeepsFlight(s: State, m: Msg)
    requires Sound(s)
    ensures FlightOk(ProcessRequest(s, m)) && FlightOk(ProcessIfaceList(s, m))
  {
    IfaceListKeepsRegistry(s, m);
    SameFlight(s, ProcessIfaceList(s, m));
    SameFlight(s, ProcessRequest(s, m));
  }

  lemma CommandKeepsFlight(s: State, verb: Verb, m: Msg, e: Event, now: Time)
    requires Sound(s) && e.Arrive? && FairMessage(s, verb, m)
    ensures ProcessCommand(s, verb, m, e, now).up ==> FlightOk(ProcessCommand(s, verb, m, e, now))
  {
    hide FlightOk, RegistryOk, CallsOk, LocalReply, FabricReply, ProcessCall, ProcessIntroduce, ProcessRequest, ProcessIfaceList;
    match verb {
      case VResult =>
        if m.actionid in s.queue { ReplyKeepsFlight(s, m, e.order, now); } else { OtherCommandKeepsFlight(s, m); }
      case VException => if m.actionid in s.queue { ReplyKeepsFlight(s, m, e.order, now); }
      case VCall => CallKeepsFlight(s, m, now);
      case VIntroduce => IntroduceKeepsFlight(s, m, e.known, e.keys);
      case VRequest => OtherCommandKeepsFlight(s, m);
      case _ =>
    }
  }

  lemma MarkAliveKeepsSound(s: State, id: Id)
    requires Sound(s)
    ensures Sound(MarkAlive(s, id))
  {
    var s1 := MarkAlive(s, id);
    assert s1.fabs.Keys == s.fabs.Keys;
    SameFlight(s, s1);
  }

  lemma MessageKeepsFlight(s: State, e: Event, now: Time)
    requires Sound(s) && e.Arrive? && Fair(s, e)
    ensures OnMessage(s, e, now).up ==> FlightOk(OnMessage(s, e, now))
  {
    hide FlightOk, RegistryOk, CallsOk, ProcessCommand;
    match Parse(e.local, e.identity, e.body) {
      case None =>
      case Some((verb, m)) =>
        MarkAliveKeepsSound(s, e.identity);
        CommandKeepsFlight(if e.local then s else MarkAlive(s, e.identity), verb, m, e, now);
    }
  }

  lemma StepKeepsSound(s: State, e: Event, now: Time)
    requires Sound(s) && Fair(s, e)
    ensures Step(s, e, now).up ==> Sound(Step(s, e, now))
  {
    hide FlightOk, RegistryOk, CallsOk, OnMessage, Sweep, Poll;
    StepKeepsRegistry(s, e, now);
    StepKeepsCalls(s, e, now);
    if s.up {
      match e {
        case Arrive(_, _, _, _, _, _) => MessageKeepsFlight(s, e, now);
        case SweepTimer(order) => SweepKeepsFlight(s, order, now);
        case PollTimer(order) => PollTouchesNoCall(s, order); SameFlight(s, Poll(s, order));
        case Beacon(id, connected) => SameFlight(s, OnBeacon(s, id, connected));
        case FromProcman(f, order) => ProcmanKeepsFlight(s, f, order);
      }
    }
  }

  ghost predicate FairRun(cfg: Config, ticks: seq<Tick>) {
    ticks == [] ||
    var before := ticks[..|ticks| - 1];
    FairRun(cfg, before) && Fair(Run(cfg, before), ticks[|ticks| - 1].ev)
  }

  // Over any fair run: an in-flight call's module is registered and busy, no two in-flight calls
  // share a module, and outside debug mode a busy module that is not to be restarted has exactly one call.
  lemma {:induction false} RunKeepsSound(cfg: Config, ticks: seq<Tick>)
    requires FairRun(cfg, ticks)
    ensures Run(cfg, ticks).up ==> Sound(Run(cfg, ticks))
  {
    if ticks != [] {
      var before, last := ticks[..|ticks| - 1], ticks[|ticks| - 1];
      RunKeepsSound(cfg, before);
      if Run(cfg, before).up { StepKeepsSound(Run(cfg, before), last.ev, last.now); }
    }
  }

  lemma OneCallPerBusyModule(cfg: Config, ticks: seq<Tick>, id: Id)
    requires FairRun(cfg, ticks) && Run(cfg, ticks).up && !cfg.debug
    requires var s := Run(cfg, ticks); id in s.modules && !s.modules[id].needRestart
    ensures var s := Run(cfg, ticks);
      s.modules[id].state.Busy? <==> exists a :: WorksOn(s, id, a) && forall b | WorksOn(s, id, b) :: b == a
  {
    RunKeepsSound(cfg, ticks);
    RunConfig(cfg, ticks);
    var s := Run(cfg, ticks);
    if s.modules[id].state.Busy? {
      var a :| WorksOn(s, id, a);
      assert forall b | WorksOn(s, id, b) :: b == a;
    }
  }

  lemma StepConfig(s: State, e: Event, now: Time)
    requires RegistryOk(s)
    ensures Step(s, e, now).cfg == s.cfg
  {
    if s.up {
      match e {
        case Arrive(local, identity, body, known, keys, order) =>
          match Parse(local, identity, body) {
            case None =>
            case Some((verb, m)) =>
              var s1 := if local then s else MarkAlive(s, identity);
              assert s1.fabs.Keys == s.fabs.Keys;
              CommandConfig(s1, verb, m, e, now);
          }
        case SweepTimer(order) => SweepConfig(s, order, now);
        case PollTimer(order) => PollTouchesNoCall(s, order);
        case Beacon(id, connected) =>
        case FromProcman(f, order) =>
      }
    }
  }

  lemma CommandConfig(s: State, verb: Verb, m: Msg, e: Event, now: Time)
    requires RegistryOk(s) && e.Arrive?
    ensures ProcessCommand(s, verb, m, e, now).cfg == s.cfg
  {
    match verb {
      case VResult => if m.actionid in s.queue { ReplyFrame(s, m, e.order, now); } else { IfaceListKeepsRegistry(s, m); }
      case VException => if m.actionid in s.queue { ReplyFrame(s, m, e.order, now); }
      case VCall => CallKeepsRegistry(s, m, now);
      case VIntroduce => IntroduceKeepsRegistry(s, m, e.known, e.keys);
      case _ =>
    }
  }

  lemma {:induction false} SweepConfig(s: State, order: seq<ActionId>, now: Time)
    ensures Sweep(s, order, now).cfg == s.cfg
    decreases |order|
  {
    if order != [] { SweepConfig(SweepItem(s, order[0], now), order[1..], now); }
  }

  lemma {:induction false} RunConfig(cfg: Config, ticks: seq<Tick>)
    requires Run(cfg, ticks).up
    ensures Run(cfg, ticks).cfg == cfg
  {
    if ticks != [] {
      var before, last := ticks[..|ticks| - 1], ticks[|ticks| - 1];
      assert Run(cfg, before).up;
      RunConfig(cfg, before);
      RunKeepsRegistry(cfg, before);
      StepConfig(Run(cfg, before), last.ev, last.now);
    }
  }
}
