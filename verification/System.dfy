/** Broker and process manager joined by their two FIFO pipes. The commands the broker has sent are
    b.commands, of which the manager has taken the first `taken`; p.pipe is the way back. While the
    broker waits for the answer to check_pid it handles nothing else. */
module System {
  import opened Wrappers
  import opened Text
  import opened Messages
  import opened Tables
  import opened Steps
  import opened Registry
  import opened Queue
  import opened InFlight
  import opened Procman
  import opened Staying

  datatype Intro = Intro(m: Msg, keys: seq<string>)

  datatype Sys = Sys(b: State, p: PState, taken: nat, waiting: Option<Intro>, seen: set<int>)

  datatype Act =
    | BrokerDoes(e: Event, now: Time)
    | IntroStarts(m: Msg, keys: seq<string>)
    | IntroEnds                                   // the broker reads one message as the answer
    | BrokerReads(modOrder: seq<Id>, now: Time)   // s_procman_event
    | ProcmanObeys(newPid: int, at: nat)
    | ProcmanChecks(order: seq<int>, health: map<int, Health>, at: nat)

  predicate IsIntroduction(e: Event) {
    e.Arrive? && Parse(e.local, e.identity, e.body).Some? && Parse(e.local, e.identity, e.body).value.0.VIntroduce?
  }

  predicate Enabled(s: Sys, act: Act) {
    match act
    case BrokerDoes(e, now) => s.waiting.None? && !e.FromProcman? && !IsIntroduction(e)
    case IntroStarts(m, keys) => s.waiting.None? && AskPid(s.b, m) != s.b
    case IntroEnds => s.waiting.Some? && s.p.pipe != []
    case BrokerReads(order, now) => s.waiting.None? && s.p.pipe != []
    case ProcmanObeys(newPid, at) => s.taken < |s.b.commands|
    case ProcmanChecks(order, health, at) => true
  }

  // The second frame of the message read in place of the answer: anything but "no" is a yes.
  predicate TakenForYes(f: Frame) { f != PidAnswer(false) }

  function Next(s: Sys, act: Act): Sys
    requires Enabled(s, act)
  {
    match act
    case BrokerDoes(e, now) => s.(b := Step(s.b, e, now))
    case IntroStarts(m, keys) => s.(b := AskPid(s.b, m), waiting := Some(Intro(m, keys)))
    case IntroEnds =>
      var i := s.waiting.value;
      s.(b := FinishIntroduce(s.b, i.m, TakenForYes(s.p.pipe[0]), i.keys),
         p := s.p.(pipe := s.p.pipe[1..]), waiting := None)
    case BrokerReads(order, now) =>
      s.(b := Step(s.b, FromProcman(s.p.pipe[0], order), now), p := s.p.(pipe := s.p.pipe[1..]))
    case ProcmanObeys(newPid, at) =>
      s.(p := Obey(s.p, s.b.commands[s.taken], newPid, at), taken := s.taken + 1, seen := s.seen + {newPid})
    case ProcmanChecks(order, health, at) =>
      s.(p := CheckAll(s.p, order, health, at))
  }

  // ---------- assumptions ----------

  // Peers are fair, a pid is never reused, one module per process under a fresh identity, every walk
  // of the module table visits all of it, and the message read as the answer is the answer.
  ghost predicate FairAct(s: Sys, act: Act)
    requires Enabled(s, act)
  {
    match act
    case BrokerDoes(e, now) => Fair(s.b, e)
    case IntroStarts(m, keys) => true
    case IntroEnds =>
      var m := s.waiting.value.m;
      && s.p.pipe[0].PidAnswer?
      && m.identity !in s.b.modules
      && (forall a <- s.b.queue :: s.b.queue[a].routedVia != Some(m.identity))
      && (forall id <- s.b.modules :: s.b.modules[id].pid != GetPid(m.body))
    case BrokerReads(order, now) => forall id <- s.b.modules :: id in order
    case ProcmanObeys(newPid, at) => newPid > 0 && newPid !in s.seen
    case ProcmanChecks(order, health, at) => true
  }

  // ---------- the invariant ----------

  // Every registered module's process is tracked, or the news of its removal is on its way.
  ghost predicate Agreement(s: Sys) {
    forall id <- s.b.modules :: s.b.modules[id].pid in s.p.procs || Removed(s.b.modules[id].pid) in s.p.pipe
  }

  ghost predicate PidsSeen(s: Sys) {
    && 0 !in s.seen && s.p.procs.Keys <= s.seen
    && (forall id <- s.b.modules :: s.b.modules[id].pid in s.seen)
    && (forall c <- s.b.commands | c.Restart? :: c.pid in s.seen)
    && (forall pid <- s.p.killed :: pid in s.seen && pid !in s.p.procs)
    && NoDup(s.p.killed)
    && (forall f <- s.p.pipe | f.Removed? :: f.pid in s.seen && f.pid !in s.p.procs)
  }

  // A restarted process is gone for good.
  ghost predicate ObeyedRestarts(s: Sys) {
    forall k | 0 <= k < s.taken && k < |s.b.commands| && s.b.commands[k].Restart? :: s.b.commands[k].pid !in s.p.procs
  }

  ghost predicate StartedIn(procs: map<int, Process>, pid: int) { pid in procs && procs[pid].started }

  ghost predicate ModulesStarted(s: Sys) {
    forall id <- s.b.modules | s.b.modules[id].pid in s.p.procs :: StartedIn(s.p.procs, s.b.modules[id].pid)
  }

  // A registration on its way is the next command to be taken, and its process is tracked.
  ghost predicate RegisterIsNext(s: Sys) {
    forall k | s.taken <= k < |s.b.commands| && s.b.commands[k].Register? ::
      k == s.taken && StartedIn(s.p.procs, s.b.commands[k].pid)
  }

  ghost predicate Configured(p: PState) {
    p.up && forall pid <- p.procs :: p.procs[pid].mod.Some? && p.procs[pid].mod.value in p.conf
  }

  ghost predicate NoAnswer(pipe: seq<Frame>) { forall f <- pipe :: !f.PidAnswer? }

  ghost predicate OneAnswer(pipe: seq<Frame>) {
    forall i, j | 0 <= i < j < |pipe| :: !(pipe[i].PidAnswer? && pipe[j].PidAnswer?)
  }

  // The question is the last command sent; once it is taken its answer is in the pipe.
  ghost predicate AnswerFollows(s: Sys) {
    var n := |s.b.commands|;
    match s.waiting
    case None =>
      NoAnswer(s.p.pipe) && forall k | s.taken <= k < n :: !s.b.commands[k].CheckPid?
    case Some(i) =>
      && n > 0 && s.b.commands[n - 1] == CheckPid(GetPid(i.m.body))
      && (forall k | s.taken <= k < n - 1 :: !s.b.commands[k].CheckPid?)
      && (s.taken < n ==> NoAnswer(s.p.pipe))
      && OneAnswer(s.p.pipe)
      && (s.taken == n && PidAnswer(true) in s.p.pipe ==> StartedIn(s.p.procs, GetPid(i.m.body)))
  }

  // The removal of a process is reported once, and only after the broker has asked for its restart.
  ghost predicate RemovedOnRequest(s: Sys) {
    && (forall f <- s.p.pipe | f.Removed? :: Restart(f.pid) in s.b.commands)
    && (forall i, j | 0 <= i < j < |s.p.pipe| :: s.p.pipe[i].Removed? ==> s.p.pipe[i] != s.p.pipe[j])
  }

  ghost predicate SysOk(s: Sys) {
    && Sound(s.b) && s.b.up && !s.b.cfg.debug && s.taken <= |s.b.commands|
    && Agreement(s) && PidsSeen(s) && ObeyedRestarts(s) && ModulesStarted(s)
    && RegisterIsNext(s) && Configured(s.p) && AnswerFollows(s) && RemovedOnRequest(s)
  }

  // ---------- what broker steps do to commands and modules ----------

  ghost predicate PidsKept(s: State, t: State) {
    forall id <- t.modules :: id in s.modules && t.modules[id].pid == s.modules[id].pid
  }

  ghost predicate RestartsOneOf(modules: map<Id, Module>, c: Command) {
    c.Restart? && exists id <- modules :: modules[id].pid == c.pid
  }

  // Only restarts of registered modules are added to the commands.
  ghost predicate Growth(s: State, t: State) {
    && |s.commands| <= |t.commands|
    && t.commands[..|s.commands|] == s.commands
    && PidsKept(s, t)
    && (forall c <- t.commands[|s.commands|..] :: RestartsOneOf(s.modules, c))
  }

  lemma GrowthTrans(s: State, t: State, u: State)
    requires Growth(s, t) && Growth(t, u)
    ensures Growth(s, u)
  {
    var n, m := |s.commands|, |t.commands|;
    assert u.commands[..n] == u.commands[..m][..n];
    assert u.commands[n..] == u.commands[..m][n..] + u.commands[m..];
    forall c <- u.commands[n..] ensures RestartsOneOf(s.modules, c) {
      if c in u.commands[m..] {
        var id :| id in t.modules && t.modules[id].pid == c.pid;
        assert id in s.modules && s.modules[id].pid == c.pid;
      }
    }
  }

  lemma SameGrowth(s: State, t: State)
    requires t.commands == s.commands && ModulesKept(s.modules, t.modules)
    ensures Growth(s, t)
  {
    assert forall id :: id in t.modules.Keys <==> id in s.modules.Keys;
  }

  lemma RestartGrowth(s: State, t: State, id: Id)
    requires id in s.modules && t.commands == s.commands + [Restart(s.modules[id].pid)] && PidsKept(s, t)
    ensures Growth(s, t)
  {
    assert t.commands[|s.commands|..] == [Restart(s.modules[id].pid)];
  }

  lemma ReleaseGrowth(s: State, id: Id, order: seq<ActionId>, now: Time)
    ensures Growth(s, Release(s, id, order, now))
  {
    if id in s.modules && s.modules[id].needRestart {
      RestartGrowth(s, Release(s, id, order, now), id);
    } else if id in s.modules {
      DrainFrame(SetState(s, id, Idle), order, now);
      SameGrowth(SetState(s, id, Idle), Drain(SetState(s, id, Idle), order, now));
    } else {
      SameGrowth(s, s);
    }
  }

  lemma LocalReplyGrowth(s: State, c: Call, m: Msg, order: seq<ActionId>, now: Time)
    ensures Growth(s, LocalReply(s, c, m, order, now))
  {
    ReleaseGrowth(Finish(s, c, m), m.identity, order, now);
  }

  lemma ReplyGrowth(s: State, m: Msg, order: seq<ActionId>, now: Time)
    requires m.actionid in s.queue
    ensures Growth(s, ProcessResult(s, m, order, now))
    ensures Growth(s, ProcessException(s, m, order, now))
  {
    var c := s.queue[m.actionid];
    LocalReplyGrowth(s, c, m, order, now);
    PlaceCallFrame(s, c, now);
    SameGrowth(s, s);
    SameGrowth(s, FabricReply(s, c, m));
    SameGrowth(s, PlaceQueued(s, m.actionid, now).st);
  }

  lemma {:induction false} SweepGrowth(s: State, order: seq<ActionId>, now: Time)
    ensures Growth(s, Sweep(s, order, now))
    decreases |order|
  {
    if order == [] {
      SameGrowth(s, s);
    } else {
      var a, t := order[0], SweepItem(s, order[0], now);
      if t.commands == s.commands { SameGrowth(s, t); }
      else { RestartGrowth(s, t, s.queue[a].routedVia.value); }
      SweepGrowth(t, order[1..], now);
      GrowthTrans(s, t, Sweep(s, order, now));
    }
  }

  lemma CallGrowth(s: State, m: Msg, now: Time)
    ensures Growth(s, ProcessCall(s, m, now))
  {
    hide Growth, PlaceCall;
    var c := CallOf(m, now);
    if c.Some? { PlaceCallFrame(s, c.value, now); }
    SameGrowth(s, ProcessCall(s, m, now));
  }

  lemma CommandGrowth(s: State, verb: Verb, m: Msg, e: Event, now: Time)
    requires RegistryOk(s) && e.Arrive? && !verb.VIntroduce?
    ensures Growth(s, ProcessCommand(s, verb, m, e, now))
  {
    hide Growth, RegistryOk, LocalReply, FabricReply, ProcessCall;
    SameGrowth(s, s);
    match verb {
      case VResult =>
        if m.actionid in s.queue { ReplyGrowth(s, m, e.order, now); }
        else { IfaceListKeepsRegistry(s, m); SameGrowth(s, ProcessIfaceList(s, m)); }
      case VException => if m.actionid in s.queue { ReplyGrowth(s, m, e.order, now); }
      case VCall => CallGrowth(s, m, now);
      case VRequest => SameGrowth(s, ProcessRequest(s, m));
      case _ =>
    }
  }

  lemma MessageGrowth(s: State, e: Event, now: Time)
    requires RegistryOk(s) && e.Arrive? && !IsIntroduction(e)
    ensures Growth(s, OnMessage(s, e, now))
  {
    match Parse(e.local, e.identity, e.body) {
      case None => SameGrowth(s, s);
      case Some((verb, m)) =>
        var s1 := if e.local then s else MarkAlive(s, e.identity);
        assert s1.fabs.Keys == s.fabs.Keys && s1.modules == s.modules && s1.commands == s.commands;
        CommandGrowth(s1, verb, m, e, now);
    }
  }

  lemma StepGrowth(s: State, e: Event, now: Time)
    requires RegistryOk(s) && !IsIntroduction(e)
    ensures Growth(s, Step(s, e, now))
  {
    SameGrowth(s, s);
    if s.up {
      match e {
        case Arrive(_, _, _, _, _, _) => MessageGrowth(s, e, now);
        case SweepTimer(order) => SweepGrowth(s, order, now);
        case PollTimer(order) => PollTouchesNoCall(s, order); SameGrowth(s, Poll(s, order));
        case Beacon(id, connected) => SameGrowth(s, OnBeacon(s, id, connected));
        case FromProcman(f, order) => ProcmanGrowth(s, f, order);
      }
    }
  }

  lemma ProcmanGrowth(s: State, f: Frame, order: seq<Id>)
    ensures Growth(s, OnProcman(s, f, order))
  {
    var hit, t := FirstWithPid(s.modules, order, FramePid(f)), OnProcman(s, f, order);
    if FramePid(f) == 0 || hit.None? { SameGrowth(s, t); }
    else if f.Removed? { assert PidsKept(s, t); }
    else if s.modules[hit.value].state.Idle? { RestartGrowth(s, t, hit.value); }
    else { assert PidsKept(s, t); }
  }

  // ---------- the steps keep the invariant ----------

  // The part of the invariant that a broker step with Growth keeps
  lemma GrowthKeeps(s: Sys, b: State)
    requires SysOk(s) && Growth(s.b, b) && Sound(b) && b.up && b.cfg == s.b.cfg && s.waiting.None?
    ensures SysOk(s.(b := b))
  {
    var t := s.(b := b);
    assert forall k | 0 <= k < |s.b.commands| :: b.commands[k] == b.commands[..|s.b.commands|][k] == s.b.commands[k];
    var n := |s.b.commands|;
    assert b.commands == s.b.commands + b.commands[n..];
    assert forall k | n <= k < |b.commands| :: b.commands[k] in b.commands[n..];
    forall c <- b.commands | c.Restart? ensures c.pid in s.seen {
      if c !in s.b.commands { assert RestartsOneOf(s.b.modules, c); }
    }
  }

  lemma IntroStartsKeeps(s: Sys, m: Msg, keys: seq<string>)
    requires SysOk(s) && Enabled(s, IntroStarts(m, keys))
    ensures SysOk(Next(s, IntroStarts(m, keys)))
  {
    hide Step, Obey, CheckAll, FinishIntroduce, BusyHasCall, NoSharing;
    SameFlight(s.b, AskPid(s.b, m));
  }

  lemma AfterAnswer(pipe: seq<Frame>)
    requires pipe != [] && pipe[0].PidAnswer? && OneAnswer(pipe)
    ensures NoAnswer(pipe[1..])
    ensures forall f :: f in pipe[1..] ==> f in pipe
    ensures forall f | f in pipe && !f.PidAnswer? :: f in pipe[1..]
  {
    forall f <- pipe[1..] ensures f in pipe && !f.PidAnswer? {
      var k :| 0 <= k < |pipe[1..]| && pipe[1..][k] == f;
      assert pipe[k + 1] == f;
    }
    assert pipe == [pipe[0]] + pipe[1..];
  }

  // The broker state after reading the answer, with everything else already in place
  lemma ShorterPipe(s: Sys, t: Sys)
    requires RemovedOnRequest(s) && s.p.pipe != [] && t.p.pipe == s.p.pipe[1..]
    requires |s.b.commands| <= |t.b.commands| && t.b.commands[..|s.b.commands|] == s.b.commands
    ensures RemovedOnRequest(t)
  {
    assert forall k | 0 <= k < |t.p.pipe| :: t.p.pipe[k] == s.p.pipe[k + 1];
    forall f <- t.p.pipe | f.Removed? ensures Restart(f.pid) in t.b.commands {
      assert f in s.p.pipe;
      var k :| 0 <= k < |s.b.commands| && s.b.commands[k] == Restart(f.pid);
      assert t.b.commands[..|s.b.commands|][k] == t.b.commands[k];
    }
  }

  // What has happened when an introduction has ended
  ghost predicate Accepted(s: Sys, t: Sys, m: Msg) {
    && s.taken == |s.b.commands| && s.waiting.Some?
    && t == s.(b := t.b, p := s.p.(pipe := t.p.pipe), waiting := None)
    && s.p.pipe != [] && t.p.pipe == s.p.pipe[1..]
    && NoAnswer(t.p.pipe) && (forall f <- t.p.pipe :: f in s.p.pipe)
    && (forall f <- s.p.pipe | !f.PidAnswer? :: f in t.p.pipe)
    && t.b.up && IntroduceOnly(s.b, t.b, m)
    && (t.b.modules != s.b.modules || t.b.commands != s.b.commands ==> StartedIn(s.p.procs, GetPid(m.body)))
  }

  lemma AcceptedCommands(s: Sys, t: Sys, m: Msg)
    requires SysOk(s) && Accepted(s, t, m)
    ensures |s.b.commands| <= |t.b.commands| && t.b.commands[..|s.b.commands|] == s.b.commands
    ensures ObeyedRestarts(t) && RegisterIsNext(t) && AnswerFollows(t)
  {
    hide Sound, RemovedOnRequest, Agreement, PidsSeen, ModulesStarted, IfacesKept;
    assert forall k | 0 <= k < |s.b.commands| :: t.b.commands[k] == s.b.commands[k];
    assert forall k | t.taken <= k < |t.b.commands| ::
      k == t.taken && t.b.commands[k].Register? && t.b.commands[k].pid == GetPid(m.body);
  }

  lemma AcceptedModules(s: Sys, t: Sys, m: Msg)
    requires SysOk(s) && Accepted(s, t, m)
    ensures Agreement(t) && PidsSeen(t) && ModulesStarted(t)
  {
    hide Sound, RemovedOnRequest, ObeyedRestarts, RegisterIsNext, AnswerFollows, IfacesKept;
  }

  lemma AcceptedKeeps(s: Sys, t: Sys, m: Msg)
    requires SysOk(s) && Accepted(s, t, m) && Sound(t.b)
    ensures SysOk(t)
  {
    AcceptedCommands(s, t, m);
    AcceptedModules(s, t, m);
    hide Sound, RemovedOnRequest, Agreement, PidsSeen, ModulesStarted, ObeyedRestarts, RegisterIsNext, AnswerFollows;
    ShorterPipe(s, t);
  }

  lemma IntroEndsKeeps(s: Sys)
    requires SysOk(s) && Enabled(s, IntroEnds) && FairAct(s, IntroEnds) && Next(s, IntroEnds).b.up
    ensures SysOk(Next(s, IntroEnds))
  {
    hide RegistryOk, CallsOk, FlightOk, Step, Obey, CheckAll;
    var t, i, head := Next(s, IntroEnds), s.waiting.value, s.p.pipe[0];
    assert head in s.p.pipe;
    FinishIntroduceKeepsRegistry(s.b, i.m, TakenForYes(head), i.keys);
    FinishIntroduceKeepsCalls(s.b, i.m, TakenForYes(head), i.keys);
    AfterAnswer(s.p.pipe);
    if t.b.commands == s.b.commands {
      SameFlight(s.b, t.b);
    } else {
      assert Restart(GetPid(i.m.body)) !in s.b.commands;
      FinishIntroduceKeepsFlight(s.b, i.m, TakenForYes(head), i.keys);
    }
    AcceptedKeeps(s, t, i.m);
  }

  // Taking the head off the pipe
  lemma PopKeeps(s: Sys, t: Sys)
    requires SysOk(s) && s.waiting.None? && s.p.pipe != []
    requires t == s.(p := s.p.(pipe := s.p.pipe[1..]))
    requires s.p.pipe[0].Removed? ==> forall id <- s.b.modules :: s.b.modules[id].pid != s.p.pipe[0].pid
    ensures SysOk(t)
  {
    forall f <- t.p.pipe ensures f in s.p.pipe {
      var k :| 0 <= k < |t.p.pipe| && t.p.pipe[k] == f;
      assert s.p.pipe[k + 1] == f;
    }
    forall id <- t.b.modules ensures t.b.modules[id].pid in t.p.procs || Removed(t.b.modules[id].pid) in t.p.pipe {
      var pid := s.b.modules[id].pid;
      if pid !in s.p.procs {
        var k :| 0 <= k < |s.p.pipe| && s.p.pipe[k] == Removed(pid);
        assert k > 0;
        assert t.p.pipe[k - 1] == s.p.pipe[k];
      }
    }
  }

  lemma ReadRemoves(s: State, f: Frame, order: seq<Id>)
    requires Sound(s) && (forall id <- s.modules :: id in order) && f.Removed? && f.pid != 0
    ensures forall id <- OnProcman(s, f, order).modules :: OnProcman(s, f, order).modules[id].pid != f.pid
  {
    FoundByPid(s.modules, order, f.pid);
  }

  lemma BrokerReadsKeeps(s: Sys, order: seq<Id>, now: Time)
    requires SysOk(s) && Enabled(s, BrokerReads(order, now)) && FairAct(s, BrokerReads(order, now))
    ensures SysOk(Next(s, BrokerReads(order, now)))
  {
    hide RegistryOk, CallsOk, FlightOk;
    var t, head := Next(s, BrokerReads(order, now)), s.p.pipe[0];
    var e := FromProcman(head, order);
    StepGrowth(s.b, e, now);
    StepConfig(s.b, e, now);
    StepKeepsSound(s.b, e, now);
    GrowthKeeps(s, t.b);
    if head.Removed? { ReadRemoves(s.b, head, order); }
    PopKeeps(s.(b := t.b), t);
  }

  lemma {:induction false} FoundByPid(modules: map<Id, Module>, order: seq<Id>, pid: int)
    ensures FirstWithPid(modules, order, pid).None? ==> forall id <- order | id in modules :: modules[id].pid != pid
  {
    if order != [] { FoundByPid(modules, order[1..], pid); }
  }

  // The pipe gets one more message.
  lemma PostKeepsAnswers(s: Sys, t: Sys, f: Frame)
    requires SysOk(s) && s.taken < |s.b.commands| && t.taken == s.taken + 1 && t.b == s.b && t.waiting == s.waiting
    requires t.p.pipe == s.p.pipe + [f]
    requires s.b.commands[s.taken].CheckPid? <==> f.PidAnswer?
    requires forall p | StartedIn(s.p.procs, p) && !(s.b.commands[s.taken].Restart? && s.b.commands[s.taken].pid == p) ::
               StartedIn(t.p.procs, p)
    requires f == PidAnswer(true) ==> StartedIn(t.p.procs, s.b.commands[s.taken].pid)
    ensures AnswerFollows(t)
  {
    hide Sound, PidsSeen, ObeyedRestarts, ModulesStarted, RegisterIsNext, Configured, RemovedOnRequest, Agreement;
  }

  lemma PostKeepsRemoved(s: Sys, t: Sys, f: Frame)
    requires RemovedOnRequest(s) && t.b == s.b && t.p.pipe == s.p.pipe + [f]
    requires f.Removed? ==> Restart(f.pid) in s.b.commands && f !in s.p.pipe
    ensures RemovedOnRequest(t)
  {}

  lemma RestartedSeen(s: Sys, t: Sys, pid: int, newPid: int, at: nat)
    requires PidsSeen(s) && s.taken < |s.b.commands| && s.b.commands[s.taken] == Restart(pid) && pid in s.p.procs
    requires newPid > 0 && newPid !in s.seen
    requires t == Next(s, ProcmanObeys(newPid, at))
    ensures PidsSeen(t) && Restart(pid) in s.b.commands && Removed(pid) !in s.p.pipe
    ensures forall k | 0 <= k < |t.b.commands| && t.b.commands[k].Restart? :: t.b.commands[k].pid in s.seen
  {
    assert s.b.commands[s.taken] in s.b.commands;
    assert t.p.procs.Keys == s.p.procs.Keys - {pid} + {newPid};
    assert t.p.pipe == s.p.pipe + [Removed(pid)];
    assert t.p.killed == s.p.killed + [pid];
  }

  // The command taken is a restart of a tracked process: killed, and replaced by a fresh one.
  lemma RestartObeyed(s: Sys, t: Sys, pid: int, newPid: int, at: nat)
    requires SysOk(s) && s.taken < |s.b.commands| && s.b.commands[s.taken] == Restart(pid) && pid in s.p.procs
    requires newPid > 0 && newPid !in s.seen
    requires t == Next(s, ProcmanObeys(newPid, at))
    ensures SysOk(t)
  {
    hide Sound, AnswerFollows, RemovedOnRequest, PidsSeen, Step, CheckAll, FinishIntroduce, AskPid;
    RestartedSeen(s, t, pid, newPid, at);
    assert t.p.procs.Keys == s.p.procs.Keys - {pid} + {newPid};
    assert forall p <- t.p.procs | p != newPid :: t.p.procs[p] == s.p.procs[p];
    assert t.p.pipe == s.p.pipe + [Removed(pid)];
    forall k | 0 <= k < t.taken && t.b.commands[k].Restart? ensures t.b.commands[k].pid !in t.p.procs {
      assert t.b.commands[k] in t.b.commands;
    }
    forall k | t.taken <= k < |t.b.commands| ensures !t.b.commands[k].Register? {
    }
    PostKeepsAnswers(s, t, Removed(pid));
    PostKeepsRemoved(s, t, Removed(pid));
  }

  lemma ProcmanObeysKeeps(s: Sys, newPid: int, at: nat)
    requires SysOk(s) && Enabled(s, ProcmanObeys(newPid, at)) && FairAct(s, ProcmanObeys(newPid, at))
    ensures SysOk(Next(s, ProcmanObeys(newPid, at)))
  {
    var t := Next(s, ProcmanObeys(newPid, at));
    match s.b.commands[s.taken] {
      case Restart(pid) =>
        if pid in s.p.procs { RestartObeyed(s, t, pid, newPid, at); }
        else {
          assert t.p == s.p;
          assert forall k | t.taken <= k < |t.b.commands| :: !t.b.commands[k].Register?;
        }
      case Register(pid, name) =>
        assert StartedIn(s.p.procs, pid);
        assert t.p == s.p;
      case CheckPid(pid) => CheckPidObeyed(s, t, pid, newPid, at);
    }
  }

  lemma CheckPidObeyed(s: Sys, t: Sys, pid: int, newPid: int, at: nat)
    requires SysOk(s) && s.taken < |s.b.commands| && s.b.commands[s.taken] == CheckPid(pid)
    requires newPid > 0 && newPid !in s.seen
    requires t == Next(s, ProcmanObeys(newPid, at))
    ensures SysOk(t)
  {
    hide Sound, RemovedOnRequest;
    assert s.waiting.Some? && s.taken == |s.b.commands| - 1;
    CheckPidRest(s, t, pid, newPid, at);
    PostKeepsAnswers(s, t, PidAnswer(pid in s.p.procs));
    PostKeepsRemoved(s, t, PidAnswer(pid in s.p.procs));
  }

  lemma CheckPidRest(s: Sys, t: Sys, pid: int, newPid: int, at: nat)
    requires SysOk(s) && s.taken < |s.b.commands| && s.b.commands[s.taken] == CheckPid(pid)
    requires newPid > 0 && newPid !in s.seen
    requires t == Next(s, ProcmanObeys(newPid, at))
    ensures Agreement(t) && PidsSeen(t) && ObeyedRestarts(t) && ModulesStarted(t) && RegisterIsNext(t) && Configured(t.p)
    ensures t.p.pipe == s.p.pipe + [PidAnswer(pid in s.p.procs)]
    ensures forall p | StartedIn(s.p.procs, p) :: StartedIn(t.p.procs, p)
    ensures pid in s.p.procs ==> StartedIn(t.p.procs, pid)
  {
    hide Sound, RemovedOnRequest, AnswerFollows;
    assert t.p.procs.Keys == s.p.procs.Keys;
  }

  // What the periodic check can do to the process table and the pipe
  ghost predicate CheckOnly(p: PState, q: PState) {
    && q.conf == p.conf && q.up == p.up && q.killed == p.killed && q.procs.Keys <= p.procs.Keys
    && (forall pid <- q.procs :: pid in p.procs && q.procs[pid] == p.procs[pid].(onRestart := q.procs[pid].onRestart))
    && (forall pid | StartedIn(p.procs, pid) :: StartedIn(q.procs, pid))
    && |p.pipe| <= |q.pipe| && q.pipe[..|p.pipe|] == p.pipe
    && (forall k | |p.pipe| <= k < |q.pipe| :: q.pipe[k].RestartAsked?)
  }

  lemma {:induction false} CheckAllOnly(p: PState, order: seq<int>, health: map<int, Health>, at: nat)
    requires Configured(p)
    ensures Configured(CheckAll(p, order, health, at)) && CheckOnly(p, CheckAll(p, order, health, at))
    decreases |order|
  {
    if order != [] {
      var h := if order[0] in health then health[order[0]] else Health(true, 0);
      var q := CheckItem(p, order[0], h, at);
      assert CheckOnly(p, q) && Configured(q);
      CheckAllOnly(q, order[1..], health, at);
      var r := CheckAll(p, order, health, at);
      assert r.pipe[..|p.pipe|] == r.pipe[..|q.pipe|][..|p.pipe|];
      forall k | |p.pipe| <= k < |r.pipe| ensures r.pipe[k].RestartAsked? {
        if k < |q.pipe| { assert r.pipe[k] == r.pipe[..|q.pipe|][k] == q.pipe[k]; }
      }
    }
  }

  lemma LongerPipe(pipe: seq<Frame>, longer: seq<Frame>)
    requires |pipe| <= |longer| && longer[..|pipe|] == pipe
    requires forall k | |pipe| <= k < |longer| :: longer[k].RestartAsked?
    ensures forall f <- longer :: f in pipe || f.RestartAsked?
    ensures forall f <- pipe :: f in longer
    ensures OneAnswer(pipe) ==> OneAnswer(longer)
  {
    var n := |pipe|;
    assert forall k | 0 <= k < n :: longer[k] == longer[..n][k] == pipe[k];
    forall f <- longer ensures f in pipe || f.RestartAsked? {
      var k :| 0 <= k < |longer| && longer[k] == f;
      if k < n { assert pipe[k] == f; }
    }
    forall f <- pipe ensures f in longer {
      var k :| 0 <= k < n && pipe[k] == f;
      assert longer[k] == f;
    }
  }

  lemma ChecksKeepProcesses(s: Sys, t: Sys)
    requires SysOk(s) && t == s.(p := t.p) && CheckOnly(s.p, t.p)
    ensures Agreement(t) && PidsSeen(t) && ObeyedRestarts(t) && ModulesStarted(t) && RegisterIsNext(t)
  {
    hide Sound, AnswerFollows, RemovedOnRequest, OneAnswer;
    LongerPipe(s.p.pipe, t.p.pipe);
    forall id <- t.b.modules
      ensures t.b.modules[id].pid in t.p.procs || Removed(t.b.modules[id].pid) in t.p.pipe
    {
      var pid := s.b.modules[id].pid;
      assert pid in s.p.procs ==> StartedIn(s.p.procs, pid);
    }
  }

  lemma ChecksKeepFrames(s: Sys, t: Sys)
    requires SysOk(s) && t == s.(p := t.p) && CheckOnly(s.p, t.p)
    ensures AnswerFollows(t) && RemovedOnRequest(t)
  {
    hide Sound, Agreement, PidsSeen, ObeyedRestarts, ModulesStarted, RegisterIsNext, Configured;
    LongerPipe(s.p.pipe, t.p.pipe);
  }

  lemma ProcmanChecksKeeps(s: Sys, order: seq<int>, health: map<int, Health>, at: nat)
    requires SysOk(s)
    ensures SysOk(Next(s, ProcmanChecks(order, health, at)))
  {
    hide Sound, Agreement, PidsSeen, ObeyedRestarts, ModulesStarted, RegisterIsNext, AnswerFollows, RemovedOnRequest;
    CheckAllOnly(s.p, order, health, at);
    var t := Next(s, ProcmanChecks(order, health, at));
    ChecksKeepProcesses(s, t);
    ChecksKeepFrames(s, t);
  }

  // Each step of either side keeps the invariant.
  lemma NextKeeps(s: Sys, act: Act)
    requires SysOk(s) && Enabled(s, act) && FairAct(s, act) && Next(s, act).b.up
    ensures SysOk(Next(s, act))
  {
    match act {
      case BrokerDoes(e, now) =>
        StepGrowth(s.b, e, now);
        StepConfig(s.b, e, now);
        StepKeepsSound(s.b, e, now);
        GrowthKeeps(s, Step(s.b, e, now));
      case IntroStarts(m, keys) => IntroStartsKeeps(s, m, keys);
      case IntroEnds => IntroEndsKeeps(s);
      case BrokerReads(order, now) => BrokerReadsKeeps(s, order, now);
      case ProcmanObeys(newPid, at) => ProcmanObeysKeeps(s, newPid, at);
      case ProcmanChecks(order, health, at) => ProcmanChecksKeeps(s, order, health, at);
    }
  }

  // ---------- runs of the whole system ----------

  // The manager has started its processes; the broker knows no module yet.
  ghost predicate Started(cfg: Config, s: Sys) {
    && s.b == Init(cfg) && !cfg.debug && s.taken == 0 && s.waiting.None?
    && Configured(s.p) && s.p.pipe == [] && s.p.killed == []
    && s.p.procs.Keys <= s.seen && 0 !in s.seen
  }

  // A history: each system follows from the one before by a fair step of one side.
  ghost predicate History(cfg: Config, h: seq<Sys>) {
    && h != [] && Started(cfg, h[0])
    && forall i | 0 <= i < |h| - 1 :: Follows(h[i], h[i + 1])
  }

  ghost predicate Follows(s: Sys, t: Sys) { t.b.up && exists act :: FairStep(s, act, t) }

  ghost predicate FairStep(s: Sys, act: Act, t: Sys) {
    Enabled(s, act) && FairAct(s, act) && t == Next(s, act)
  }

  lemma {:induction false} HistoryOk(cfg: Config, h: seq<Sys>, i: nat)
    requires History(cfg, h) && i < |h|
    ensures SysOk(h[i])
    decreases i
  {
    if i > 0 {
      HistoryOk(cfg, h, i - 1);
      assert Follows(h[i - 1], h[i - 1 + 1]);
      var act :| FairStep(h[i - 1], act, h[i]);
      NextKeeps(h[i - 1], act);
    }
  }

  lemma NextCommands(s: Sys, act: Act)
    requires SysOk(s) && Enabled(s, act)
    ensures |s.b.commands| <= |Next(s, act).b.commands|
    ensures Next(s, act).b.commands[..|s.b.commands|] == s.b.commands
  {
    match act {
      case BrokerDoes(e, now) => StepGrowth(s.b, e, now);
      case BrokerReads(order, now) => StepGrowth(s.b, FromProcman(s.p.pipe[0], order), now);
      case IntroEnds => FinishIntroduceKeepsRegistry(s.b, s.waiting.value.m, TakenForYes(s.p.pipe[0]), s.waiting.value.keys);
      case _ =>
    }
  }

  lemma NextInHistory(cfg: Config, h: seq<Sys>, i: nat)
    requires History(cfg, h) && i + 1 < |h|
    ensures h[i].b.commands <= h[i + 1].b.commands
  {
    HistoryOk(cfg, h, i);
    assert Follows(h[i], h[i + 1]);
    var act :| FairStep(h[i], act, h[i + 1]);
    NextCommands(h[i], act);
  }

  lemma {:induction false} CommandsOnlyGrow(cfg: Config, h: seq<Sys>, i: nat, j: nat)
    requires History(cfg, h) && i <= j < |h|
    ensures h[i].b.commands <= h[j].b.commands
    decreases j
  {
    hide History, Follows;
    if i < j {
      CommandsOnlyGrow(cfg, h, i, j - 1);
      NextInHistory(cfg, h, j - 1);
    }
  }

  // Every call in flight is with a registered module, and none of these is the process pid.
  ghost predicate NoCallWith(b: State, pid: int) {
    forall a <- b.queue | b.queue[a].procTs != 0 ::
      && b.queue[a].routedVia.Some? && b.queue[a].routedVia.value in b.modules
      && b.modules[b.queue[a].routedVia.value].pid != pid
  }

  // Drain before kill. When the manager carries out `restart pid`, and ever after, every call in flight
  // is with a registered module of another process, and no module of that process is idle, so that
  // none can be given to it - whether the restart was asked for an idle module, after the answer of a
  // busy one, or for one that was taken out of the tables because it let a call time out.
  lemma DrainBeforeKill(cfg: Config, h: seq<Sys>, i: nat, j: nat)
    requires History(cfg, h) && i <= j < |h|
    requires h[i].taken < |h[i].b.commands| && h[i].b.commands[h[i].taken].Restart?
    ensures var pid := h[i].b.commands[h[i].taken].pid;
      NoCallWith(h[j].b, pid) && forall id <- h[j].b.modules | h[j].b.modules[id].pid == pid :: !h[j].b.modules[id].state.Idle?
  {
    HistoryOk(cfg, h, j);
    CommandsOnlyGrow(cfg, h, i, j);
    var c := h[i].b.commands[h[i].taken];
    assert h[j].b.commands[h[i].taken] == c;
    assert c in h[j].b.commands;
    assert Spent(h[j].b, c.pid);
  }

  // In every reachable state: each registered module's process is tracked or its removal is on the
  // way to the broker; no process was killed twice; every tracked process has a configuration.
  lemma BrokerAndManagerAgree(cfg: Config, h: seq<Sys>, i: nat)
    requires History(cfg, h) && i < |h|
    ensures Agreement(h[i]) && NoDup(h[i].p.killed) && Configured(h[i].p)
  {
    HistoryOk(cfg, h, i);
  }

  // A registration never creates an entry: the process is already there.
  lemma RegisterFindsItsProcess(cfg: Config, h: seq<Sys>, i: nat, newPid: int, at: nat)
    requires History(cfg, h) && i < |h|
    requires h[i].taken < |h[i].b.commands| && h[i].b.commands[h[i].taken].Register?
    ensures Obey(h[i].p, h[i].b.commands[h[i].taken], newPid, at) == h[i].p
  {
    HistoryOk(cfg, h, i);
  }

  // ---------- when the message read is not the answer ----------

  // The introduction that ends is complete, and the message read in place of the answer is not a "no".
  ghost predicate Accepts(s: Sys) {
    s.waiting.Some? && s.p.pipe != [] &&
    var i, known := s.waiting.value, TakenForYes(s.p.pipe[0]);
    && known && GetPid(i.m.body) != 0 && BodyString(i.m.body, "name").Some?
    && GetProvides(i.m.body).Some? && GetProvides(i.m.body).value != map[]
    && !IntroduceCrashes(s.b, i.m, known, i.keys)
  }

  // The broker takes whatever message comes first for the answer and forgets it. Agreement then
  // survives exactly if that message was not the removal of a registered module's process and, when the
  // introduction is accepted, its process is tracked or its own removal follows.
  lemma ReadingTheWrongMessage(s: Sys)
    requires SysOk(s) && Enabled(s, IntroEnds)
    requires s.waiting.value.m.identity !in s.b.modules
    ensures var head, pid := s.p.pipe[0], GetPid(s.waiting.value.m.body);
      Agreement(Next(s, IntroEnds)) <==>
        && (head.Removed? ==> forall id <- s.b.modules :: s.b.modules[id].pid != head.pid)
        && (Accepts(s) ==> pid in s.p.procs || Removed(pid) in s.p.pipe[1..])
  {
    hide Next, Sound, ObeyedRestarts, RegisterIsNext, ModulesStarted, Configured, AnswerFollows;
    ModulesAfterAnswer(s);
    var t, head := Next(s, IntroEnds), s.p.pipe[0];
    assert head in s.p.pipe;
    assert head.Removed? ==> head !in s.p.pipe[1..] by {
      assert forall k | 0 < k < |s.p.pipe| :: s.p.pipe[1..][k - 1] == s.p.pipe[k];
    }
    assert forall id <- s.b.modules :: id in t.b.modules && t.b.modules[id] == s.b.modules[id];
  }

  lemma ModulesAfterAnswer(s: Sys)
    requires SysOk(s) && Enabled(s, IntroEnds)
    requires s.waiting.value.m.identity !in s.b.modules
    ensures var t, m := Next(s, IntroEnds), s.waiting.value.m;
      && s.p.pipe == [s.p.pipe[0]] + t.p.pipe && t.p.procs == s.p.procs
      && (if Accepts(s) then m.identity in t.b.modules && t.b.modules[m.identity].pid == GetPid(m.body)
                             && t.b.modules == s.b.modules[m.identity := t.b.modules[m.identity]]
          else t.b.modules == s.b.modules)
  {
    hide Sound, IntroduceCrashes, ProvideAll;
    var i, known := s.waiting.value, TakenForYes(s.p.pipe[0]);
    RegistryOfSound(s.b);
    FinishIntroduceKeepsRegistry(s.b, i.m, known, i.keys);
    FinishIntroduceUp(s.b, i.m, known, i.keys);
    if Accepts(s) {
      var name, versions := BodyString(i.m.body, "name").value, GetProvides(i.m.body).value;
      var s1, t := ProvideAll(s.b, i.m.identity, name, versions, i.keys), Next(s, IntroEnds).b;
      ProvideAllKeepsModules(s.b, i.m.identity, name, versions, i.keys);
      assert t == if s1.up then AddModule(s1, i.m, name) else s1;
      assert t.modules == s.b.modules[i.m.identity := Module(i.m.identity, name, GetPid(i.m.body), Idle, false)];
    } else {
      AcceptedOnly(s.b, i.m, known, i.keys);
    }
  }

  lemma AcceptedOnly(s: State, m: Msg, known: bool, keys: seq<string>)
    requires RegistryOk(s) && s.up && !s.cfg.debug
    requires !(&& known && GetPid(m.body) != 0 && BodyString(m.body, "name").Some?
               && GetProvides(m.body).Some? && GetProvides(m.body).value != map[]
               && !IntroduceCrashes(s, m, known, keys))
    ensures FinishIntroduce(s, m, known, keys).modules == s.modules
  {
    hide IntroduceCrashes, ProvideAll, RegistryOk;
    FinishIntroduceUp(s, m, known, keys);
    if BodyString(m.body, "name").Some? && GetProvides(m.body).Some? {
      ProvideAllKeepsModules(s, m.identity, BodyString(m.body, "name").value, GetProvides(m.body).value, keys);
    }
  }

  lemma {:induction false} ProvideAllKeepsModules(s: State, id: Id, name: string, versions: map<string, U64>, keys: seq<string>)
    ensures var t := ProvideAll(s, id, name, versions, keys);
      t.modules == s.modules && t.commands == s.commands && (!s.up ==> t == s)
    decreases |keys|
  {
    if keys != [] && s.up && keys[0] in versions {
      ProvideAllKeepsModules(Provide(s, name, keys[0], versions[keys[0]], id, true), id, name, versions, keys[1..]);
    } else if keys != [] && s.up {
      ProvideAllKeepsModules(s, id, name, versions, keys[1..]);
    }
  }

  lemma RegistryOfSound(b: State)
    requires Sound(b)
    ensures RegistryOk(b) && CallsOk(b)
  {}
}
