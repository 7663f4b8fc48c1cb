/** Runs from start-up in which the broker does what was not meant: it leaves a call waiting although an
    instance is idle, never gives a call to the successor of the module it waits for, or goes down. */
module Scenes {
  import opened Wrappers
  import opened Text
  import opened Messages
  import opened Tables
  import opened Steps
  import opened Queue
  import opened Draining
  import opened InFlight
  import opened Stranded

  const FIRST: Id := "0000000001"
  const SECOND: Id := "0000000002"
  const CALLER: Id := "0000000003"

  function Local(identity: Id, body: Value, keys: seq<string>): Event { Arrive(true, identity, body, true, keys, []) }

  // An introduction that the process manager confirms, and a call, as the broker handles them
  lemma Introduces(s: State, id: Id, name: string, pid: U64, func: string, ver: U64, a: ActionId, now: Time)
    requires s.up && |a| >= 5 && 0 < pid < TWO31
    ensures var m := Msg(id, true, a, Introduction(name, pid, [Entry(func, PosInt(ver))], a));
      var p := Provide(Tell(s, CheckPid(pid)), name, func, ver, id, true);
      Step(s, Local(id, m.body, [func]), now) == if p.up then AddModule(p, m, name) else p
  {
    hide Provide, AddModule, Introduction;
    ReadOneProvided(name, pid, func, ver, a);
    var m := Msg(id, true, a, Introduction(name, pid, [Entry(func, PosInt(ver))], a));
    assert m.body.MapV? by { IntroductionIsMap(name, pid, func, ver, a); }
    assert Parse(true, id, m.body) == Some((VIntroduce, m));
    assert map[func := ver] != map[] by { assert func in map[func := ver]; }
    var s1 := Tell(s, CheckPid(pid));
    var p := Provide(s1, name, func, ver, id, true);
    assert [func][1..] == [];
    assert ProvideAll(p, id, name, map[func := ver], []) == p;
    assert ProvideAll(s1, id, name, map[func := ver], [func]) == p;
  }

  lemma IntroductionIsMap(name: string, pid: U64, func: string, ver: U64, a: ActionId)
    ensures Introduction(name, pid, [Entry(func, PosInt(ver))], a).MapV?
  {}

  lemma CallsFor(s: State, id: Id, mod: string, func: string, ver: U64, a: ActionId, now: Time)
    requires s.up && |a| >= 5 && ver != 0
    ensures var m := Msg(id, true, a, CallMessage(mod, func, ver, a));
      Step(s, Local(id, m.body, []), now) == Admit(m, PlaceCall(s, NewCall(m, mod, func, ver, now), now))
  {
    hide PlaceCall, Admit, CallMessage;
    ReadCall(mod, func, ver, a);
    var m := Msg(id, true, a, CallMessage(mod, func, ver, a));
    assert m.body.MapV? by { CallIsMap(mod, func, ver, a); }
    assert Parse(true, id, m.body) == Some((VCall, m));
  }

  lemma CallIsMap(mod: string, func: string, ver: U64, a: ActionId)
    ensures CallMessage(mod, func, ver, a).MapV?
  {}

  // ---------- two instances of one module ----------

  // Two instances of module "m" introduce themselves, and a third module calls twice.
  function TwoInstances(now: Time): seq<Tick> {
    [Tick(now, Local(FIRST, Introduction("m", 11, [Entry("f", PosInt(1))], "aid-1"), ["f"])),
     Tick(now, Local(SECOND, Introduction("m", 12, [Entry("f", PosInt(1))], "aid-2"), ["f"])),
     Tick(now, Local(CALLER, CallMessage("m", "f", 1, "aid-3"), [])),
     Tick(now, Local(CALLER, CallMessage("m", "f", 1, "aid-4"), []))]
  }

  lemma WalkOne(modules: map<Id, Module>, x: Id, found: Option<Id>)
    requires x in modules
    ensures WalkIds(modules, [x], found) == Walked(if modules[x].state.Idle? then Some(x) else found)
  {
    assert [x][1..] == [];
  }

  lemma WalkTwo(modules: map<Id, Module>, x: Id, y: Id)
    requires x in modules && y in modules
    ensures WalkIds(modules, [x, y], None) ==
      Walked(if modules[y].state.Idle? then Some(y) else if modules[x].state.Idle? then Some(x) else None)
  {
    assert [x, y][1..] == [y];
    WalkOne(modules, y, if modules[x].state.Idle? then Some(x) else None);
  }

  ghost predicate HasInstances(s: State, walk: Walk, first: ModState, second: ModState) {
    && s.up && s.cfg.walk == walk && s.registry == [0]
    && s.store == [Iface("m", "f", 1, [FIRST, SECOND], [])]
    && FIRST in s.modules && SECOND in s.modules
    && s.modules[FIRST].state == first && s.modules[SECOND].state == second
  }

  lemma FirstIntroduced(cfg: Config, now: Time)
    ensures var s := Step(Init(cfg), TwoInstances(now)[0].ev, now);
      && s.up && s.cfg == cfg && s.registry == [0] && s.store == [Iface("m", "f", 1, [FIRST], [])]
      && FIRST in s.modules && s.modules[FIRST].state.Idle? && s.modules.Keys == {FIRST} && s.queue == map[]
  {
    hide Introduction, Step;
    Introduces(Init(cfg), FIRST, "m", 11, "f", 1, "aid-1", now);
    var p := Provide(Tell(Init(cfg), CheckPid(11)), "m", "f", 1, FIRST, true);
    assert CheckInterface(Tell(Init(cfg), CheckPid(11)), "m", "f", 1).None?;
    assert Appended([], FIRST) == [FIRST];
    assert p.store == [] + [AppendId(Iface("m", "f", 1, [], []), FIRST, true)];
    assert AppendId(Iface("m", "f", 1, [], []), FIRST, true) == Iface("m", "f", 1, [FIRST], []);
    assert p.store == [Iface("m", "f", 1, [FIRST], [])] && p.registry == [0];
  }

  lemma SecondIntroduced(s: State, now: Time)
    requires s.up && s.registry == [0] && s.store == [Iface("m", "f", 1, [FIRST], [])]
    requires FIRST in s.modules && s.modules[FIRST].state.Idle? && s.modules.Keys == {FIRST} && s.queue == map[]
    ensures var t := Step(s, TwoInstances(now)[1].ev, now);
      HasInstances(t, s.cfg.walk, Idle, Idle) && t.queue == map[]
  {
    hide Introduction, Step;
    Introduces(s, SECOND, "m", 12, "f", 1, "aid-2", now);
    assert FIRST[9] != SECOND[9];
    var s1 := Tell(s, CheckPid(12));
    assert CheckFrom(s.store, [0], "m", "f", 1) == Some(0);
    assert CheckInterface(s1, "m", "f", 1) == Some(0);
    var p := Provide(s1, "m", "f", 1, SECOND, true);
    assert Appended([FIRST], SECOND) == [FIRST, SECOND];
    assert p.store == [Iface("m", "f", 1, [FIRST, SECOND], [])] && p.registry == [0];
  }

  lemma CallPlaced(s: State, walk: Walk, a: ActionId, now: Time)
    requires HasInstances(s, walk, Idle, Idle) && s.queue == map[] && |a| >= 5
    ensures var t := Step(s, Local(CALLER, CallMessage("m", "f", 1, a), []), now);
      && a in t.queue && t.queue.Keys == {a}
      && if walk.AsWritten? then HasInstances(t, walk, Busy, Idle) else HasInstances(t, walk, Idle, Busy)
  {
    hide CallMessage;
    CallsFor(s, CALLER, "m", "f", 1, a, now);
    var i := s.store[0];
    assert FIRST[9] != SECOND[9];
    assert CheckFrom(s.store, [0], "m", "f", 1) == Some(0);
    WalkOne(s.modules, FIRST, None);
    WalkTwo(s.modules, FIRST, SECOND);
    assert Candidates(walk, i) == if walk.AsWritten? then [FIRST] else [FIRST, SECOND];
    assert WalkIds(s.modules, Candidates(walk, i), None) == Walked(Some(if walk.AsWritten? then FIRST else SECOND));
  }

  lemma SecondCall(s: State, walk: Walk, a: ActionId, now: Time)
    requires HasInstances(s, walk, if walk.AsWritten? then Busy else Idle, if walk.AsWritten? then Idle else Busy)
    requires a !in s.queue && |a| >= 5
    ensures var t := Step(s, Local(CALLER, CallMessage("m", "f", 1, a), []), now);
      && a in t.queue && HasInstances(t, walk, Busy, if walk.AsWritten? then Idle else Busy)
      && t.queue[a].iface == Some(0) == Offer(t, t.queue[a])
      && t.queue[a].routedVia == if walk.AsWritten? then None else Some(FIRST)
  {
    hide CallMessage, Step, Local;
    CallsFor(s, CALLER, "m", "f", 1, a, now);
    var i := s.store[0];
    assert FIRST[9] != SECOND[9];
    assert CheckFrom(s.store, [0], "m", "f", 1) == Some(0);
    WalkOne(s.modules, FIRST, None);
    WalkTwo(s.modules, FIRST, SECOND);
    assert Candidates(walk, i) == if walk.AsWritten? then [FIRST] else [FIRST, SECOND];
    assert WalkIds(s.modules, Candidates(walk, i), None) == Walked(if walk.AsWritten? then None else Some(FIRST));
  }

  // After these four messages the second call is left waiting as written, although the second
  // instance is idle; as intended it has been placed.
  lemma SecondInstanceIsNeverTried(cfg: Config, now: Time)
    ensures var t := Run(cfg, TwoInstances(now));
      && t.up && "aid-4" in t.queue
      && if cfg.walk.AsWritten? then Overlooked(t, t.queue["aid-4"]) else t.queue["aid-4"].routedVia == Some(FIRST)
  {
    hide Introduction, CallMessage, Step, TwoInstances;
    var ticks := TwoInstances(now);
    FourTicks(now);
    var s1 := Step(Init(cfg), ticks[0].ev, now);
    var s2 := Step(s1, ticks[1].ev, now);
    var s3 := Step(s2, ticks[2].ev, now);
    FirstIntroduced(cfg, now);
    SecondIntroduced(s1, now);
    CallPlaced(s2, cfg.walk, "aid-3", now);
    assert "aid-3"[4] != "aid-4"[4];
    SecondCall(s3, cfg.walk, "aid-4", now);
    RunFour(cfg, ticks);
    assert SECOND in [FIRST, SECOND];
  }

  lemma RunFour(cfg: Config, ticks: seq<Tick>)
    requires |ticks| == 4
    ensures Run(cfg, ticks) == Step(Step(Step(Step(Init(cfg), ticks[0].ev, ticks[0].now), ticks[1].ev, ticks[1].now),
                                         ticks[2].ev, ticks[2].now), ticks[3].ev, ticks[3].now)
  {
    hide Step;
    assert ticks[..3][..2] == ticks[..2] && ticks[..2][..1] == ticks[..1] && ticks[..1][..0] == [];
    assert Run(cfg, []) == Init(cfg);
    assert Run(cfg, ticks[..1]) == Step(Run(cfg, []), ticks[0].ev, ticks[0].now);
    assert Run(cfg, ticks[..2]) == Step(Run(cfg, ticks[..1]), ticks[1].ev, ticks[1].now);
    assert Run(cfg, ticks[..3]) == Step(Run(cfg, ticks[..2]), ticks[2].ev, ticks[2].now);
  }

  lemma FourTicks(now: Time)
    ensures var ticks := TwoInstances(now);
      && |ticks| == 4 && forall k | 0 <= k < 4 :: ticks[k].now == now
    ensures TwoInstances(now)[2].ev == Local(CALLER, CallMessage("m", "f", 1, "aid-3"), [])
    ensures TwoInstances(now)[3].ev == Local(CALLER, CallMessage("m", "f", 1, "aid-4"), [])
  {}

  // ---------- an instance and its successor ----------

  // An instance introduces itself and is to be restarted; a call comes in for it; its process is removed, and
  // another instance introduces itself.
  function Restarted(now: Time): seq<Tick> {
    [Tick(now, Local(FIRST, Introduction("m", 11, [Entry("f", PosInt(1))], "aid-1"), ["f"])),
     Tick(now, FromProcman(RestartAsked(11), [FIRST])),
     Tick(now, Local(CALLER, CallMessage("m", "f", 1, "aid-4"), [])),
     Tick(now, FromProcman(Removed(11), [FIRST])),
     Tick(now, Local(SECOND, Introduction("m", 12, [Entry("f", PosInt(1))], "aid-2"), ["f"]))]
  }

  function Iface1(locals: seq<Id>): Iface { Iface("m", "f", 1, locals, []) }

  function Hello(id: Id, pid: nat, a: ActionId): Msg
    requires pid < 100
  {
    Msg(id, true, a, Introduction("m", pid, [Entry("f", PosInt(1))], a))
  }

  function Waiting(now: Time): Call {
    NewCall(Msg(CALLER, true, "aid-4", CallMessage("m", "f", 1, "aid-4")), "m", "f", 1, now).(iface := Some(0))
  }

  function B1(cfg: Config): State {
    AddModule(Tell(Init(cfg), CheckPid(11)).(store := [Iface1([FIRST])], registry := [0]), Hello(FIRST, 11, "aid-1"), "m")
  }
  function B2(cfg: Config): State {
    Tell(B1(cfg).(modules := map[FIRST := Module(FIRST, "m", 11, Restarting, false)]), Restart(11))
  }
  function B3(cfg: Config, now: Time): State { B2(cfg).(queue := map["aid-4" := Waiting(now)]) }
  function B4(cfg: Config, now: Time): State { B3(cfg, now).(store := [Iface1([])], registry := [], modules := map[]) }
  function B5(cfg: Config, now: Time): State {
    AddModule(Tell(B4(cfg, now), CheckPid(12)).(store := [Iface1([]), Iface1([SECOND])], registry := [1]), Hello(SECOND, 12, "aid-2"), "m")
  }

  lemma First(cfg: Config)
    ensures var s := B1(cfg);
      && s.cfg == cfg && s.up && s.store == [Iface1([FIRST])] && s.registry == [0] && s.queue == map[]
      && s.modules == map[FIRST := Module(FIRST, "m", 11, Idle, false)] && s.commands == [CheckPid(11), Register(11, "m")]
  {
    hide Introduction, GetPid;
    ReadOneProvided("m", 11, "f", 1, "aid-1");
  }

  lemma FairHello(s: State, id: Id, pid: U64, a: ActionId)
    requires |a| >= 5 && 0 < pid < TWO31 && id !in s.modules && Restart(pid) !in s.commands
    requires forall b <- s.queue :: s.queue[b].routedVia != Some(id)
    requires forall x <- s.modules :: s.modules[x].pid != pid
    ensures Fair(s, Local(id, Introduction("m", pid, [Entry("f", PosInt(1))], a), ["f"]))
  {
    hide Introduction, GetPid, CheckCommand, CheckActionid;
    ReadOneProvided("m", pid, "f", 1, a);
  }

  lemma FairCall(s: State, id: Id, a: ActionId)
    requires |a| >= 5 && a !in s.queue
    ensures Fair(s, Local(id, CallMessage("m", "f", 1, a), []))
  {
    hide CallMessage, CheckCommand, CheckActionid;
    ReadCall("m", "f", 1, a);
  }

  lemma NewInterface(s: State, id: Id)
    requires s.up && s.registry == []
    ensures Provide(s, "m", "f", 1, id, true) == s.(store := s.store + [Iface1([id])], registry := [|s.store|])
  {
    assert CheckInterface(s, "m", "f", 1).None? && Appended([], id) == [id];
    assert AppendId(Iface("m", "f", 1, [], []), id, true) == Iface1([id]);
    assert [] + [|s.store|] == [|s.store|];
  }

  lemma Step1(cfg: Config, now: Time)
    ensures Step(Init(cfg), Restarted(now)[0].ev, now) == B1(cfg) && Fair(Init(cfg), Restarted(now)[0].ev)
  {
    hide Introduction, Step, AddModule, Fair, Local, Provide;
    FairHello(Init(cfg), FIRST, 11, "aid-1");
    Introduces(Init(cfg), FIRST, "m", 11, "f", 1, "aid-1", now);
    NewInterface(Tell(Init(cfg), CheckPid(11)), FIRST);
    assert [] + [Iface1([FIRST])] == [Iface1([FIRST])];
  }

  lemma Step2(cfg: Config, now: Time)
    ensures Step(B1(cfg), Restarted(now)[1].ev, now) == B2(cfg) && Fair(B1(cfg), Restarted(now)[1].ev)
  {
    hide Introduction, B1;
    First(cfg);
    assert FirstWithPid(B1(cfg).modules, [FIRST], 11) == Some(FIRST);
  }

  lemma Step3(cfg: Config, now: Time)
    ensures Step(B2(cfg), Restarted(now)[2].ev, now) == B3(cfg, now) && Fair(B2(cfg), Restarted(now)[2].ev)
  {
    hide Introduction, CallMessage, B1, Step, Fair, Local;
    First(cfg);
    var s := B2(cfg);
    FairCall(s, CALLER, "aid-4");
    CallsFor(s, CALLER, "m", "f", 1, "aid-4", now);
    assert CheckFrom(s.store, [0], "m", "f", 1) == Some(0);
    WalkOne(s.modules, FIRST, None);
    assert Candidates(cfg.walk, s.store[0]) == [FIRST];
  }

  lemma Step4(cfg: Config, now: Time)
    ensures Step(B3(cfg, now), Restarted(now)[3].ev, now) == B4(cfg, now) && Fair(B3(cfg, now), Restarted(now)[3].ev)
  {
    hide Introduction, CallMessage, B1, OnMessage, Sweep, Poll;
    First(cfg);
    var s := B3(cfg, now);
    assert FirstWithPid(s.modules, [FIRST], 11) == Some(FIRST);
    assert Without([FIRST], FIRST) == [];
    assert PurgeStore(s.store, s.registry, FIRST) == [Iface1([])];
    assert Live([0], [Iface1([])]) == [];
  }

  lemma Step5(cfg: Config, now: Time)
    ensures Step(B4(cfg, now), Restarted(now)[4].ev, now) == B5(cfg, now) && Fair(B4(cfg, now), Restarted(now)[4].ev)
  {
    hide Introduction, CallMessage, Step, AddModule, B1, Fair, Local, Provide;
    First(cfg);
    FairHello(B4(cfg, now), SECOND, 12, "aid-2");
    Introduces(B4(cfg, now), SECOND, "m", 12, "f", 1, "aid-2", now);
    NewInterface(Tell(B4(cfg, now), CheckPid(12)), SECOND);
    assert [Iface1([])] + [Iface1([SECOND])] == [Iface1([]), Iface1([SECOND])];
  }

  lemma RunFive(cfg: Config, ticks: seq<Tick>)
    requires |ticks| == 5
    ensures var s1 := Step(Init(cfg), ticks[0].ev, ticks[0].now);
      var s2 := Step(s1, ticks[1].ev, ticks[1].now);
      var s3 := Step(s2, ticks[2].ev, ticks[2].now);
      var s4 := Step(s3, ticks[3].ev, ticks[3].now);
      && Run(cfg, ticks) == Step(s4, ticks[4].ev, ticks[4].now)
      && (FairRun(cfg, ticks) <==>
            && Fair(Init(cfg), ticks[0].ev) && Fair(s1, ticks[1].ev) && Fair(s2, ticks[2].ev)
            && Fair(s3, ticks[3].ev) && Fair(s4, ticks[4].ev))
  {
    hide Step, Fair;
    RunFour(cfg, ticks[..4]);
    var t1, t2, t3, t4 := ticks[..1], ticks[..2], ticks[..3], ticks[..4];
    assert t4[..3] == t3 && t3[..2] == t2 && t2[..1] == t1 && t1[..0] == [];
    assert Run(cfg, t1) == Step(Run(cfg, []), ticks[0].ev, ticks[0].now);
    assert Run(cfg, t2) == Step(Run(cfg, t1), ticks[1].ev, ticks[1].now);
    assert Run(cfg, t3) == Step(Run(cfg, t2), ticks[2].ev, ticks[2].now);
    assert FairRun(cfg, t1) <==> Fair(Init(cfg), ticks[0].ev);
    assert FairRun(cfg, t2) <==> FairRun(cfg, t1) && Fair(Run(cfg, t1), ticks[1].ev);
    assert FairRun(cfg, t3) <==> FairRun(cfg, t2) && Fair(Run(cfg, t2), ticks[2].ev);
    assert FairRun(cfg, t4) <==> FairRun(cfg, t3) && Fair(Run(cfg, t3), ticks[3].ev);
  }

  // This run is fair, and at its end the second instance is idle and serves the call, which is stranded.
  lemma SuccessorGetsNothing(cfg: Config, now: Time)
    ensures var ticks, t := Restarted(now), Run(cfg, Restarted(now));
      && FairRun(cfg, ticks) && t.up && "aid-4" in t.queue
      && var c := t.queue["aid-4"];
         && IsStranded(t, c) && Servable(t, c) && IsIdle(t, SECOND) && SECOND in At(t.store, Offer(t, c).value).locals
  {
    hide Step, Fair, FairRun, Restarted, B1, B2, B3, B4, B5;
    FiveTicks(now);
    RunFive(cfg, Restarted(now));
    Step1(cfg, now);
    Step2(cfg, now);
    Step3(cfg, now);
    Step4(cfg, now);
    Step5(cfg, now);
    AtTheEnd(cfg, now);
  }

  lemma FiveTicks(now: Time)
    ensures |Restarted(now)| == 5 && forall k | 0 <= k < 5 :: Restarted(now)[k].now == now
  {
    hide Introduction, CallMessage;
  }

  lemma AtTheEnd(cfg: Config, now: Time)
    ensures var t := B5(cfg, now);
      && t.up && "aid-4" in t.queue
      && var c := t.queue["aid-4"];
         && IsStranded(t, c) && Servable(t, c) && IsIdle(t, SECOND) && SECOND in At(t.store, Offer(t, c).value).locals
  {
    hide Introduction, CallMessage, B1;
    First(cfg);
    var t := B5(cfg, now);
    assert CheckFrom(t.store, [1], "m", "f", 1) == Some(1);
    assert SECOND in [SECOND];
  }

  // ---------- outages ----------

  function List(id: Id, paths: seq<string>, a: ActionId): Event {
    Arrive(false, id, IfaceListResponse(paths, a), false, [], [])
  }

  // An interface list as the broker handles it
  lemma ListArrives(s: State, id: Id, paths: seq<string>, a: ActionId, now: Time)
    requires s.up && a !in s.queue && |a| >= 5
    ensures Step(s, List(id, paths, a), now) == if id in s.fabs then MergeList(MarkAlive(s, id), id, paths) else Crash(s)
  {
    ReadIfaceListResponse(paths, a);
    var body := IfaceListResponse(paths, a);
    assert body.MapV? by { ListIsMap(paths, a); }
    hide IfaceListResponse, GetIfaceList, MergeList, CheckCommand, CheckActionid;
    assert Parse(false, id, body) == Some((VResult, Msg(id, false, a, body)));
  }

  lemma ListIsMap(paths: seq<string>, a: ActionId)
    ensures IfaceListResponse(paths, a).MapV?
  {}

  // An interface list from somebody unknown
  function Stranger(id: Id, now: Time): seq<Tick> { [Tick(now, List(id, [], "aid-1"))] }

  lemma StrangerBringsItDown(cfg: Config, id: Id, now: Time)
    ensures !Run(cfg, Stranger(id, now)).up
  {
    ListArrives(Init(cfg), id, [], "aid-1", now);
    hide Step, List;
    assert Stranger(id, now)[..0] == [] && Run(cfg, []) == Init(cfg);
  }

  const FABRIC: Id := "tcp://other"

  // A module introduces itself, another fabric is found and announces the same interface, and a call comes in.
  function BothProvide(now: Time): seq<Tick> {
    [Tick(now, Local(FIRST, Introduction("m", 11, [Entry("f", PosInt(1))], "aid-1"), ["f"])),
     Tick(now, Beacon(FABRIC, true)),
     Tick(now, List(FABRIC, [FormatPath("m", "f", 1)], "aid-2")),
     Tick(now, Local(CALLER, CallMessage("m", "f", 1, "aid-3"), []))]
  }

  lemma FabricAdded(s: State)
    requires s.up && s.store == [Iface1([FIRST])] && s.registry == [0]
    ensures Provide(s, "m", "f", 1, FABRIC, false) == s.(store := [Iface("m", "f", 1, [FIRST], [FABRIC])])
  {
    assert CheckFrom(s.store, [0], "m", "f", 1) == Some(0);
    assert Appended([], FABRIC) == [FABRIC];
  }

  lemma Merged(s: State, path: string)
    requires s.up && ParsePath(path) == Some(("m", "f", 1)) && Provide(s, "m", "f", 1, FABRIC, false).up
    ensures MergeList(s, FABRIC, [path]) == Provide(s, "m", "f", 1, FABRIC, false)
  {
    hide Provide, ParsePath;
    var t := Provide(s, "m", "f", 1, FABRIC, false);
    assert [path][1..] == [] && MergeList(t, FABRIC, []) == t;
  }

  lemma Announces(s: State, now: Time)
    requires s.up && FABRIC in s.fabs && s.queue == map[] && s.store == [Iface1([FIRST])] && s.registry == [0]
    ensures var t := Step(s, List(FABRIC, [FormatPath("m", "f", 1)], "aid-2"), now);
      t == s.(fabs := t.fabs, store := [Iface("m", "f", 1, [FIRST], [FABRIC])])
  {
    var path, s1 := FormatPath("m", "f", 1), MarkAlive(s, FABRIC);
    PathRoundTrip("m", "f", 1);
    FabricAdded(s1);
    Merged(s1, path);
    hide Step, List, FormatPath, ParsePath, Provide, MergeList;
    ListArrives(s, FABRIC, [path], "aid-2", now);
  }

  // As written the call brings the broker down; as intended it goes to the module.
  lemma CallForBothBringsItDown(cfg: Config, now: Time)
    ensures var t := Run(cfg, BothProvide(now));
      if cfg.walk.AsWritten? then !t.up else t.up && "aid-3" in t.queue && t.queue["aid-3"].routedVia == Some(FIRST)
  {
    hide Introduction, CallMessage, List, FormatPath, Step, BothProvide, B1;
    FourEvents(now);
    RunFour(cfg, BothProvide(now));
    FirstAlone(cfg, now);
    var s1 := B1(cfg);
    First(cfg);
    var s2 := Step(s1, BothProvide(now)[1].ev, now);
    Found(s1, now);
    Announces(s2, now);
    CallForBoth(Step(s2, BothProvide(now)[2].ev, now), now);
  }

  lemma FourEvents(now: Time)
    ensures |BothProvide(now)| == 4 && forall k | 0 <= k < 4 :: BothProvide(now)[k].now == now
    ensures BothProvide(now)[0] == Restarted(now)[0] && BothProvide(now)[1].ev == Beacon(FABRIC, true)
    ensures BothProvide(now)[2].ev == List(FABRIC, [FormatPath("m", "f", 1)], "aid-2")
    ensures BothProvide(now)[3].ev == Local(CALLER, CallMessage("m", "f", 1, "aid-3"), [])
  {
    hide Introduction, CallMessage, List, FormatPath;
  }

  lemma FirstAlone(cfg: Config, now: Time)
    ensures Step(Init(cfg), Restarted(now)[0].ev, now) == B1(cfg) && B1(cfg).fabs == map[]
  {
    Step1(cfg, now);
    hide Introduction;
  }

  lemma Found(s: State, now: Time)
    requires s.up && s.fabs == map[]
    ensures Step(s, Beacon(FABRIC, true), now) == s.(fabs := map[FABRIC := true])
  {}

  lemma CallForBoth(s: State, now: Time)
    requires s.up && s.queue == map[] && s.store == [Iface("m", "f", 1, [FIRST], [FABRIC])] && s.registry == [0]
    requires s.modules == map[FIRST := Module(FIRST, "m", 11, Idle, false)]
    ensures var t := Step(s, Local(CALLER, CallMessage("m", "f", 1, "aid-3"), []), now);
      if s.cfg.walk.AsWritten? then !t.up else t.up && "aid-3" in t.queue && t.queue["aid-3"].routedVia == Some(FIRST)
  {
    hide CallMessage;
    CallsFor(s, CALLER, "m", "f", 1, "aid-3", now);
    assert |FIRST| != |FABRIC|;
    assert CheckFrom(s.store, [0], "m", "f", 1) == Some(0);
    WalkOne(s.modules, FIRST, None);
    assert [FIRST, FABRIC][1..] == [FABRIC] && [FIRST] + [FABRIC] == [FIRST, FABRIC];
    assert WalkIds(s.modules, [FIRST, FABRIC], None) == Fault;
  }
}
