/** What is true of every queued call: it is bound to an interface that serves it, its timestamps
    say where it is, and a call that came from another fabric is already with a local module. */
module Queue {
  import opened Wrappers
  import opened Messages
  import opened Tables
  import opened Steps
  import opened Registry

  // ---------- what placeCall can do ----------

  predicate IsIdle(s: State, id: Id) { IdleIn(s.modules, id) }

  predicate IdleIn(modules: map<Id, Module>, id: Id) { id in modules && modules[id].state.Idle? }

  // The last idle module of the list
  predicate LastIdle(modules: map<Id, Module>, ids: seq<Id>, id: Id) {
    exists k | 0 <= k < |ids| :: ids[k] == id && IdleIn(modules, id) && forall j | k < j < |ids| :: !IdleIn(modules, ids[j])
  }

  predicate NoneIdle(modules: map<Id, Module>, ids: seq<Id>) {
    forall id <- ids :: id in modules && !modules[id].state.Idle?
  }

  // The module that is given a call bound to i: the last idle local provider - as the walk is written,
  // the last idle global one, or else the first local one.
  predicate Chosen(s: State, i: Iface, id: Id) {
    match s.cfg.walk
    case Intended => LastIdle(s.modules, i.locals, id)
    case AsWritten =>
      i.locals != [] && (LastIdle(s.modules, i.globals, id) || (id == i.locals[0] && IsIdle(s, id) && NoneIdle(s.modules, i.globals)))
  }

  // No module can be given a call bound to i.
  predicate NobodyToGive(s: State, i: Iface) {
    match s.cfg.walk
    case Intended => NoneIdle(s.modules, i.locals)
    case AsWritten => i.locals != [] ==> NoneIdle(s.modules, [i.locals[0]]) && NoneIdle(s.modules, i.globals)
  }

  // The fabric a call goes to: the second one on its copied list, if there are two
  predicate FabricOf(b: Call, id: Id) {
    b.globals != [] && id == if |b.globals| >= 2 then b.globals[1] else b.globals[0]
  }

  predicate CanRelay(s: State, b: Call) {
    b.iface.Some? && At(s.store, b.iface.value).locals == [] && b.local && b.globals != []
  }

  ghost predicate Handed(s: State, b: Call, p: Placed, id: Id, now: Time) {
    && IsIdle(s, id)
    && (b.iface.Some? ==> if CanRelay(s, b) then FabricOf(b, id) else Chosen(s, At(s.store, b.iface.value), id))
    && p.st == Send(SetState(s, id, Busy), id, CallOut(!b.local, false), b.actionid, b.body)
    && p.call == b.(routedVia := Some(id), procTs := now)
  }

  ghost predicate Relayed(s: State, b: Call, p: Placed, id: Id, now: Time) {
    && CanRelay(s, b) && FabricOf(b, id) && !IsIdle(s, id)
    && p.st == Send(s, id, CallOut(false, true), b.actionid, b.body)
    && p.call == b.(routedVia := Some(id), outTs := now)
  }

  // Outcomes of placing a call that is not routed yet
  ghost predicate Outcome(s: State, c: Call, p: Placed, now: Time) {
    var b := Bind(s, c);
    || (p.rc == -1 && b.iface.None? && p.st == s && p.call == b)
    || (p.rc == 0 && b.iface.Some? && p.st == s && p.call == b
        && NobodyToGive(s, At(s.store, b.iface.value)) && !CanRelay(s, b))
    || (p.rc == 0 && b.iface.Some? && p.st == Crash(s) && p.call == b)
    || (p.rc == 0 && b.iface.Some? && exists id :: Handed(s, b, p, id, now))
    || (p.rc == 0 && b.iface.Some? && exists id :: Relayed(s, b, p, id, now))
  }

  lemma LastOfRest(modules: map<Id, Module>, ids: seq<Id>, id: Id)
    requires ids != []
    ensures LastIdle(modules, ids[1..], id) ==> LastIdle(modules, ids, id)
    ensures IdleIn(modules, ids[0]) && NoneIdle(modules, ids[1..]) ==> LastIdle(modules, ids, ids[0])
  {
    var rest := ids[1..];
    assert forall j | 0 < j < |ids| :: ids[j] == rest[j - 1];
    if LastIdle(modules, rest, id) {
      var k :| 0 <= k < |rest| && rest[k] == id && IdleIn(modules, id) && forall j | k < j < |rest| :: !IdleIn(modules, rest[j]);
      assert ids[k + 1] == id;
    }
  }

  lemma {:induction false} WalkIdsSpec(modules: map<Id, Module>, ids: seq<Id>, found: Option<Id>)
    requires found.Some? ==> IdleIn(modules, found.value)
    ensures match WalkIds(modules, ids, found)
      case Fault => exists id <- ids :: id !in modules
      case Walked(Some(id)) =>
        && (forall x <- ids :: x in modules) && IdleIn(modules, id)
        && (LastIdle(modules, ids, id) || (found == Some(id) && NoneIdle(modules, ids)))
      case Walked(None) => found.None? && NoneIdle(modules, ids)
  {
    hide LastIdle;
    if ids != [] {
      assert ids == [ids[0]] + ids[1..];
      if ids[0] in modules {
        var next := if modules[ids[0]].state.Idle? then Some(ids[0]) else found;
        WalkIdsSpec(modules, ids[1..], next);
        var walked := WalkIds(modules, ids[1..], next);
        LastOfRest(modules, ids, if walked.Walked? && walked.found.Some? then walked.found.value else ids[0]);
      } else {
        assert ids[0] in ids;
      }
    }
  }

  lemma PlaceCallOutcome(s: State, c: Call, now: Time)
    ensures c.routedVia.Some? ==> PlaceCall(s, c, now) == Placed(s, c, 0)
    ensures c.routedVia.None? ==> Outcome(s, c, PlaceCall(s, c, now), now)
  {
    var b := Bind(s, c);
    if c.routedVia.None? && b.iface.Some? {
      var i := At(s.store, b.iface.value);
      WalkIdsSpec(s.modules, Candidates(s.cfg.walk, i), None);
      var t := Route(s, b, i);
      if t.To? {
        var p := PlaceCall(s, c, now);
        assert Handed(s, b, p, t.id, now) || Relayed(s, b, p, t.id, now);
      }
    }
  }

  // ---------- the invariant ----------

  ghost predicate Bound(c: Call, store: seq<Iface>) {
    && c.iface.Some? && c.iface.value < |store|
    && Serves(store[c.iface.value], c.mod, c.func, c.ver)
  }

  // Unrouted, with a local module (procTs), or with the fabric it goes to (outTs)
  ghost predicate Stamped(c: Call) {
    match c.routedVia
    case None => c.procTs == 0 && c.outTs == 0
    case Some(id) => (c.procTs == 0) != (c.outTs == 0) && (c.outTs != 0 ==> FabricOf(c, id))
  }

  ghost predicate ForeignIsPlaced(c: Call) {
    !c.local ==> c.globals == [] && c.procTs != 0 && c.outTs == 0
  }

  ghost predicate CallOk(c: Call, store: seq<Iface>) {
    Bound(c, store) && Stamped(c) && ForeignIsPlaced(c)
  }

  ghost predicate QueueOk(s: State) {
    forall a <- s.queue :: s.queue[a].actionid == a && CallOk(s.queue[a], s.store)
  }

  // No call of foreign origin has ever been sent on to another fabric.
  ghost predicate NeverRelayed(sent: seq<Sent>) {
    forall e <- sent :: e.kind.CallOut? ==> !(e.kind.foreign && e.kind.relayed)
  }

  ghost predicate CallsOk(s: State) { QueueOk(s) && NeverRelayed(s.sent) }

  lemma BindSpec(s: State, c: Call)
    requires forall r <- s.registry :: r < |s.store|
    requires c.iface.Some? ==> Bound(c, s.store)
    ensures var b := Bind(s, c);
      && b == c.(iface := b.iface, globals := b.globals)
      && (b.iface.Some? ==> Bound(b, s.store))
      && (!c.local ==> b.globals == c.globals)
  {
    CheckFromSpec(s.store, s.registry, c.mod, c.func, c.ver);
    var hit := CheckInterface(s, c.mod, c.func, c.ver);
    assert hit.Some? ==> hit.value in s.registry;
  }

  lemma PlaceCallSends(s: State, c: Call, now: Time)
    requires NeverRelayed(s.sent)
    ensures NeverRelayed(PlaceCall(s, c, now).st.sent)
  {
    PlaceCallOutcome(s, c, now);
  }

  lemma PlaceCallKeeps(s: State, c: Call, now: Time)
    requires forall r <- s.registry :: r < |s.store|
    requires c.iface.Some? ==> Bound(c, s.store)
    requires c.routedVia.Some? ==> c.iface.Some?
    requires Stamped(c) && (!c.local ==> c.globals == [])
    ensures var p := PlaceCall(s, c, now);
      && p.call == c.(routedVia := p.call.routedVia, procTs := p.call.procTs, outTs := p.call.outTs,
                      iface := p.call.iface, globals := p.call.globals)
      && (p.rc != -1 ==> Bound(p.call, s.store))
      && (p.rc == -1 ==> c.iface.None?)
      && Stamped(p.call)
      && (!c.local ==> p.call.globals == [] && p.call.outTs == c.outTs)
  {
    BindSpec(s, c);
    PlaceCallOutcome(s, c, now);
    var b, p := Bind(s, c), PlaceCall(s, c, now);
    if c.routedVia.None? {
      if id :| Handed(s, b, p, id, now) {
      } else if id :| Relayed(s, b, p, id, now) {
      } else {
        assert p.call == b;
      }
    }
  }

  // No queued call makes placeCall return -1, so the pass over the queue never stops early.
  lemma PlaceQueuedKeeps(s: State, a: ActionId, now: Time)
    requires RegistryOk(s) && CallsOk(s) && a in s.queue
    ensures PlaceQueued(s, a, now).rc == 0
    ensures RegistryOk(PlaceQueued(s, a, now).st) && CallsOk(PlaceQueued(s, a, now).st)
  {
    PlaceCallKeeps(s, s.queue[a], now);
    PlaceCallSends(s, s.queue[a], now);
    PlaceCallFrame(s, s.queue[a], now);
    PlaceCallOutcome(s, s.queue[a], now);
  }

  lemma {:induction false} DrainKeeps(s: State, order: seq<ActionId>, now: Time)
    requires RegistryOk(s) && CallsOk(s)
    ensures RegistryOk(Drain(s, order, now)) && CallsOk(Drain(s, order, now))
    decreases |order|
  {
    if order != [] && s.up {
      if order[0] in s.queue {
        PlaceQueuedKeeps(s, order[0], now);
        DrainKeeps(PlaceQueued(s, order[0], now).st, order[1..], now);
      } else {
        DrainKeeps(s, order[1..], now);
      }
    }
  }

  lemma FinishKeeps(s: State, c: Call, m: Msg)
    requires RegistryOk(s) && CallsOk(s)
    ensures var t := Finish(s, c, m);
      && RegistryOk(t) && CallsOk(t)
      && t.queue == s.queue - {m.actionid} && t.modules == s.modules && t.commands == s.commands && t.cfg == s.cfg
  {
  }

  lemma IdleKeeps(s: State, id: Id)
    requires RegistryOk(s) && CallsOk(s) && id in s.modules
    ensures RegistryOk(SetState(s, id, Idle)) && CallsOk(SetState(s, id, Idle))
  {
    assert SetState(s, id, Idle).modules.Keys == s.modules.Keys;
  }

  lemma LocalReplyKeeps(s: State, c: Call, m: Msg, order: seq<ActionId>, now: Time)
    requires RegistryOk(s) && CallsOk(s)
    ensures CallsOk(LocalReply(s, c, m, order, now))
  {
    var s2 := Finish(s, c, m);
    FinishKeeps(s, c, m);
    if m.identity in s2.modules && !s2.modules[m.identity].needRestart {
      var s3 := SetState(s2, m.identity, Idle);
      IdleKeeps(s2, m.identity);
      DrainKeeps(s3, order, now);
    }
  }

  lemma FabricReplyKeeps(s: State, c: Call, m: Msg)
    requires CallsOk(s)
    ensures CallsOk(FabricReply(s, c, m))
  {
  }

  lemma ReplyKeepsCalls(s: State, m: Msg, order: seq<ActionId>, now: Time)
    requires RegistryOk(s) && CallsOk(s) && m.actionid in s.queue
    ensures CallsOk(ProcessResult(s, m, order, now))
    ensures CallsOk(ProcessException(s, m, order, now))
  {
    hide RegistryOk, CallsOk, LocalReply, FabricReply, PlaceQueued;
    LocalReplyKeeps(s, s.queue[m.actionid], m, order, now);
    FabricReplyKeeps(s, s.queue[m.actionid], m);
    PlaceQueuedKeeps(s, m.actionid, now);
  }

  lemma PlacedCallOk(s: State, c: Call, now: Time)
    requires RegistryOk(s) && CallsOk(s)
    requires c.iface.None? && c.routedVia.None? && c.procTs == 0 && c.outTs == 0 && c.globals == []
    ensures var p := PlaceCall(s, c, now);
      && CallsOk(p.st) && p.st.queue == s.queue && p.call.actionid == c.actionid && p.call.local == c.local
      && (p.rc != -1 && (c.local || p.call.routedVia.Some?) ==> CallOk(p.call, p.st.store))
  {
    PlaceCallKeeps(s, c, now);
    PlaceCallSends(s, c, now);
    PlaceCallFrame(s, c, now);
  }

  lemma AdmitKeepsCalls(m: Msg, p: Placed)
    requires CallsOk(p.st) && p.call.actionid == m.actionid && p.call.local == m.local
    requires p.rc != -1 && (m.local || p.call.routedVia.Some?) ==> CallOk(p.call, p.st.store)
    ensures CallsOk(Admit(m, p))
  {
  }

  lemma CallKeepsCalls(s: State, m: Msg, now: Time)
    requires RegistryOk(s) && CallsOk(s)
    ensures ProcessCall(s, m, now).up ==> CallsOk(ProcessCall(s, m, now))
  {
    match CallOf(m, now) {
      case None =>
      case Some(c) =>
        PlacedCallOk(s, c, now);
        AdmitKeepsCalls(m, PlaceCall(s, c, now));
    }
  }

  lemma KeptIfaces(s: State, t: State)
    requires CallsOk(s) && IfacesKept(s.store, t.store)
    requires forall a <- t.queue :: a in s.queue && t.queue[a] == s.queue[a]
    requires NeverRelayed(t.sent)
    ensures CallsOk(t)
  {
  }

  lemma SweepItemKeepsCalls(s: State, a: ActionId, now: Time)
    requires RegistryOk(s) && CallsOk(s)
    ensures RegistryOk(SweepItem(s, a, now)) && CallsOk(SweepItem(s, a, now))
  {
    SweepItemKeepsRegistry(s, a, now);
    hide RegistryOk, IfacesKept;
    KeptIfaces(s, SweepItem(s, a, now));
  }

  lemma {:induction false} SweepKeepsCalls(s: State, order: seq<ActionId>, now: Time)
    requires RegistryOk(s) && CallsOk(s)
    ensures CallsOk(Sweep(s, order, now))
    decreases |order|
  {
    hide RegistryOk, CallsOk, SweepItem;
    if order != [] {
      SweepItemKeepsCalls(s, order[0], now);
      SweepKeepsCalls(SweepItem(s, order[0], now), order[1..], now);
    }
  }

  lemma PollItemKeepsCalls(s: State, q: Polled)
    requires RegistryOk(s) && CallsOk(s)
    ensures CallsOk(PollItem(s, q))
  {
    PollItemKeepsRegistry(s, q);
    hide RegistryOk, IfacesKept;
    KeptIfaces(s, PollItem(s, q));
  }

  lemma {:induction false} PollKeepsCalls(s: State, order: seq<Polled>)
    requires RegistryOk(s) && CallsOk(s)
    ensures CallsOk(Poll(s, order))
    decreases |order|
  {
    hide RegistryOk, CallsOk, PollItem;
    if order != [] {
      PollItemKeepsRegistry(s, order[0]);
      PollItemKeepsCalls(s, order[0]);
      PollKeepsCalls(PollItem(s, order[0]), order[1..]);
    }
  }

  lemma FinishIntroduceKeepsCalls(s: State, m: Msg, known: bool, keys: seq<string>)
    requires RegistryOk(s) && CallsOk(s)
    ensures CallsOk(FinishIntroduce(s, m, known, keys))
  {
    FinishIntroduceKeepsRegistry(s, m, known, keys);
    KeptIfaces(s, FinishIntroduce(s, m, known, keys));
  }

  lemma CommandKeepsCalls(s: State, verb: Verb, m: Msg, e: Event, now: Time)
    requires RegistryOk(s) && CallsOk(s) && e.Arrive?
    ensures ProcessCommand(s, verb, m, e, now).up ==> CallsOk(ProcessCommand(s, verb, m, e, now))
  {
    match verb {
      case VResult =>
        if m.actionid in s.queue { ReplyKeepsCalls(s, m, e.order, now); }
        else { IfaceListKeepsRegistry(s, m); KeptIfaces(s, ProcessIfaceList(s, m)); }
      case VException => if m.actionid in s.queue { ReplyKeepsCalls(s, m, e.order, now); }
      case VCall => CallKeepsCalls(s, m, now);
      case VIntroduce => FinishIntroduceKeepsCalls(AskPid(s, m), m, e.known, e.keys);
      case _ =>
    }
  }

  lemma MessageKeepsCalls(s: State, e: Event, now: Time)
    requires RegistryOk(s) && CallsOk(s) && e.Arrive?
    ensures OnMessage(s, e, now).up ==> CallsOk(OnMessage(s, e, now))
  {
    match Parse(e.local, e.identity, e.body) {
      case None =>
      case Some((verb, m)) =>
        var s1 := if e.local then s else MarkAlive(s, e.identity);
        assert s1.fabs.Keys == s.fabs.Keys;
        CommandKeepsCalls(s1, verb, m, e, now);
    }
  }

  lemma StepKeepsCalls(s: State, e: Event, now: Time)
    requires RegistryOk(s) && CallsOk(s)
    ensures Step(s, e, now).up ==> CallsOk(Step(s, e, now))
  {
    hide OnMessage, Sweep, Poll;
    if s.up {
      match e {
        case Arrive(_, _, _, _, _, _) => MessageKeepsCalls(s, e, now);
        case SweepTimer(order) => SweepKeepsCalls(s, order, now);
        case PollTimer(order) => PollKeepsCalls(s, order);
        case Beacon(id, connected) =>
        case FromProcman(f, order) =>
          ProcmanKeepsRegistry(s, f, order);
          KeptIfaces(s, OnProcman(s, f, order));
      }
    }
  }

  // Over any run, whatever the peers send: every queued call is bound to an interface of its own
  // module and function with at least the requested version; every queued call of foreign origin
  // is with a local module; and no call of foreign origin was ever sent on to another fabric.
  lemma {:induction false} RunKeepsCalls(cfg: Config, ticks: seq<Tick>)
    ensures Run(cfg, ticks).up ==> RegistryOk(Run(cfg, ticks)) && CallsOk(Run(cfg, ticks))
  {
    RunKeepsRegistry(cfg, ticks);
    if ticks != [] {
      var before, last := ticks[..|ticks| - 1], ticks[|ticks| - 1];
      RunKeepsCalls(cfg, before);
      if Run(cfg, before).up {
        StepKeepsCalls(Run(cfg, before), last.ev, last.now);
      }
    }
  }
}
