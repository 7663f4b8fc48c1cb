/** A history of broker and process manager in which the broker takes the removal of a dead process for
    the answer to its question about another one, and so never hears of the removal. */
module Stale {
  import opened Wrappers
  import opened Text
  import opened Messages
  import opened Tables
  import opened Steps
  import opened Procman
  import opened System

  const ONE: Id := "0000000001"
  const TWO: Id := "0000000002"

  // Two instances of module "m", in processes 5 and 7, introduce themselves.
  function Hello(id: Id, pid: U64): Msg { Msg(id, true, "aid-1", Introduction("m", pid, [Entry("f", PosInt(1))], "aid-1")) }

  lemma ReadHello(id: Id, pid: U64)
    requires pid < TWO31
    ensures var body := Hello(id, pid).body;
      && BodyString(body, "name") == Some("m") && GetPid(body) == pid && GetProvides(body) == Some(map["f" := 1])
      && Hello(id, pid).identity == id
  {
    ReadOneProvided("m", pid, "f", 1, "aid-1");
  }

  // The manager has started both instances; the broker knows no module yet.
  function Conf(): map<string, ModuleConf> { map["m" := ModuleConf(2, 10, 0, true)] }

  function Proc(started: bool, onRestart: bool, at: nat): Process { Process("m", Some("m"), started, onRestart, at) }

  function Manager0(): PState { StartAll(Boot(Conf()), Conf(), ["m"], [5, 7], 1) }

  lemma BothStarted()
    ensures Manager0() == Boot(Conf()).(procs := map[5 := Proc(false, false, 1), 7 := Proc(false, false, 1)])
  {
    var p := Boot(Conf());
    assert Wanted(Conf(), "m") == 2;
    assert [5, 7][..2] == [5, 7] && ["m"][1..] == [] && [5, 7][1..] == [7] && [7][1..] == [];
    var p1 := StartProc(p, "m", Some("m"), 5, 1);
    assert StartInstances(p1, "m", [7], 1) == StartProc(p1, "m", Some("m"), 7, 1);
    assert StartInstances(p, "m", [5, 7], 1) == StartProc(p1, "m", Some("m"), 7, 1);
  }

  // The broker before and after module ONE is registered, and after its restart was commanded
  function Broker1(cfg: Config): State { Tell(Init(cfg), CheckPid(5)) }

  function Broker3(cfg: Config): State {
    AddModule(Broker1(cfg).(store := [Iface("m", "f", 1, [ONE], [])], registry := [0]), Hello(ONE, 5), "m")
  }

  function Broker6(cfg: Config): State {
    Tell(Broker3(cfg).(modules := map[ONE := Module(ONE, "m", 5, Restarting, false)]), Restart(5))
  }

  function Broker8(cfg: Config): State { Tell(Broker6(cfg), CheckPid(7)) }

  function Managed(procs: map<int, Process>, pipe: seq<Frame>, killed: seq<int>): PState {
    Boot(Conf()).(procs := procs, pipe := pipe, killed := killed)
  }

  // Process 5 introduces itself, is confirmed and registered, and dies; its restart is commanded and
  // carried out, as process 103. Then process 7 introduces itself and is confirmed.
  function Intro5(): Option<Intro> { Some(Intro(Hello(ONE, 5), ["f"])) }
  function Intro7(): Option<Intro> { Some(Intro(Hello(TWO, 7), ["f"])) }

  function Both(first: Process): map<int, Process> { map[5 := first, 7 := Proc(false, false, 1)] }
  function Fresh(second: Process): map<int, Process> { map[7 := second, 103 := Proc(false, false, 4)] }

  function S0(cfg: Config): Sys { Sys(Init(cfg), Manager0(), 0, None, {5, 7}) }
  function S1(cfg: Config): Sys { Sys(Broker1(cfg), Manager0(), 0, Intro5(), {5, 7}) }
  function S2(cfg: Config): Sys {
    Sys(Broker1(cfg), Managed(Both(Proc(true, false, 1)), [PidAnswer(true)], []), 1, Intro5(), {5, 7, 101})
  }
  function S3(cfg: Config): Sys { Sys(Broker3(cfg), Managed(Both(Proc(true, false, 1)), [], []), 1, None, {5, 7, 101}) }
  function S4(cfg: Config): Sys { Sys(Broker3(cfg), Managed(Both(Proc(true, false, 1)), [], []), 2, None, {5, 7, 101, 102}) }
  function S5(cfg: Config): Sys {
    Sys(Broker3(cfg), Managed(Both(Proc(true, true, 1)), [RestartAsked(5)], []), 2, None, {5, 7, 101, 102})
  }
  function S6(cfg: Config): Sys { Sys(Broker6(cfg), Managed(Both(Proc(true, true, 1)), [], []), 2, None, {5, 7, 101, 102}) }
  function S7(cfg: Config): Sys {
    Sys(Broker6(cfg), Managed(Fresh(Proc(false, false, 1)), [Removed(5)], [5]), 3, None, {5, 7, 101, 102, 103})
  }
  function S8(cfg: Config): Sys {
    Sys(Broker8(cfg), Managed(Fresh(Proc(false, false, 1)), [Removed(5)], [5]), 3, Intro7(), {5, 7, 101, 102, 103})
  }
  function S9(cfg: Config): Sys {
    Sys(Broker8(cfg), Managed(Fresh(Proc(true, false, 1)), [Removed(5), PidAnswer(true)], [5]), 4, Intro7(),
        {5, 7, 101, 102, 103, 104})
  }

  function Story(cfg: Config): seq<Sys> {
    [S0(cfg), S1(cfg), S2(cfg), S3(cfg), S4(cfg), S5(cfg), S6(cfg), S7(cfg), S8(cfg), S9(cfg)]
  }

  lemma Confirmed(s: State, id: Id, pid: U64)
    requires s.up && 0 < pid < TWO31
    ensures var p := Provide(s, "m", "f", 1, id, true);
      FinishIntroduce(s, Hello(id, pid), true, ["f"]) == if p.up then AddModule(p, Hello(id, pid), "m") else p
  {
    hide Provide, AddModule, Hello;
    ReadHello(id, pid);
    var versions: map<string, U64> := map["f" := 1];
    assert "f" in versions;
    var p := Provide(s, "m", "f", 1, id, true);
    assert ["f"][1..] == [];
    assert ProvideAll(p, id, "m", versions, []) == p;
    assert ProvideAll(s, id, "m", versions, ["f"]) == p;
  }

  lemma FirstProvided(cfg: Config)
    ensures var p := Provide(Broker1(cfg), "m", "f", 1, ONE, true);
      p == Broker1(cfg).(store := [Iface("m", "f", 1, [ONE], [])], registry := [0])
  {
    var s := Broker1(cfg);
    assert CheckInterface(s, "m", "f", 1).None?;
    assert Appended([], ONE) == [ONE];
    assert AppendId(Iface("m", "f", 1, [], []), ONE, true) == Iface("m", "f", 1, [ONE], []);
    assert Provide(s, "m", "f", 1, ONE, true).store == [] + [Iface("m", "f", 1, [ONE], [])];
  }

  lemma FirstRegistered(cfg: Config)
    ensures FinishIntroduce(Broker1(cfg), Hello(ONE, 5), true, ["f"]) == Broker3(cfg)
    ensures Broker3(cfg).modules == map[ONE := Module(ONE, "m", 5, Idle, false)]
    ensures Broker3(cfg).commands == [CheckPid(5), Register(5, "m")]
    ensures Broker3(cfg).up && Broker3(cfg).cfg == cfg && Broker3(cfg).queue == map[]
  {
    hide Hello, Provide;
    ReadHello(ONE, 5);
    Confirmed(Broker1(cfg), ONE, 5);
    FirstProvided(cfg);
  }

  lemma Step1(cfg: Config)
    requires !cfg.debug
    ensures Follows(S0(cfg), S1(cfg))
  {
    hide Hello, Manager0, Step, Obey, CheckAll, FinishIntroduce;
    ReadHello(ONE, 5);
    assert FairStep(S0(cfg), IntroStarts(Hello(ONE, 5), ["f"]), S1(cfg));
  }

  lemma Step2(cfg: Config)
    requires !cfg.debug
    ensures Follows(S1(cfg), S2(cfg))
  {
    hide Hello, Manager0, Step, CheckAll, FinishIntroduce, AskPid;
    BothStarted();
    assert FairStep(S1(cfg), ProcmanObeys(101, 2), S2(cfg));
  }

  lemma Step3(cfg: Config)
    requires !cfg.debug
    ensures Follows(S2(cfg), S3(cfg))
  {
    hide Hello, FinishIntroduce, Broker3, Step, CheckAll, Obey, AskPid;
    ReadHello(ONE, 5);
    FirstRegistered(cfg);
    assert [PidAnswer(true)][1..] == [];
    assert FairStep(S2(cfg), IntroEnds, S3(cfg));
  }

  lemma Step4(cfg: Config)
    requires !cfg.debug
    ensures Follows(S3(cfg), S4(cfg))
  {
    hide Hello, Broker3, Step, CheckAll, FinishIntroduce, AskPid;
    FirstRegistered(cfg);
    assert FairStep(S3(cfg), ProcmanObeys(102, 2), S4(cfg));
  }

  lemma Step5(cfg: Config)
    requires !cfg.debug
    ensures Follows(S4(cfg), S5(cfg))
  {
    hide Hello, Broker3, Step, FinishIntroduce, AskPid, Obey;
    FirstRegistered(cfg);
    var health := map[5 := Health(false, 0)];
    assert [5][1..] == [];
    assert CheckItem(S4(cfg).p, 5, health[5], 3) == S5(cfg).p;
    assert CheckAll(S4(cfg).p, [5], health, 3) == S5(cfg).p;
    assert FairStep(S4(cfg), ProcmanChecks([5], health, 3), S5(cfg));
  }

  lemma Step6(cfg: Config, now: Time)
    requires !cfg.debug
    ensures Follows(S5(cfg), S6(cfg))
  {
    hide Hello, Broker3, FinishIntroduce, CheckAll, Obey, AskPid;
    FirstRegistered(cfg);
    assert FirstWithPid(S5(cfg).b.modules, [ONE], 5) == Some(ONE);
    assert [RestartAsked(5)][1..] == [];
    assert OnProcman(S5(cfg).b, RestartAsked(5), [ONE]) == Broker6(cfg);
    assert FairStep(S5(cfg), BrokerReads([ONE], now), S6(cfg));
  }

  lemma Step7(cfg: Config)
    requires !cfg.debug
    ensures Follows(S6(cfg), S7(cfg))
  {
    hide Hello, Broker3, Step, CheckAll, FinishIntroduce, AskPid;
    FirstRegistered(cfg);
    assert Broker6(cfg).commands == [CheckPid(5), Register(5, "m"), Restart(5)];
    var p := Obey(S6(cfg).p, Restart(5), 103, 4);
    assert p.procs == Fresh(Proc(false, false, 1));
    assert FairStep(S6(cfg), ProcmanObeys(103, 4), S7(cfg));
  }

  lemma Step8(cfg: Config)
    requires !cfg.debug
    ensures Follows(S7(cfg), S8(cfg))
  {
    hide Hello, Broker3, Step, CheckAll, Obey, FinishIntroduce;
    ReadHello(TWO, 7);
    FirstRegistered(cfg);
    assert FairStep(S7(cfg), IntroStarts(Hello(TWO, 7), ["f"]), S8(cfg));
  }

  lemma Step9(cfg: Config)
    requires !cfg.debug
    ensures Follows(S8(cfg), S9(cfg))
  {
    hide Hello, Broker3, Step, CheckAll, FinishIntroduce, AskPid;
    FirstRegistered(cfg);
    assert Broker8(cfg).commands == [CheckPid(5), Register(5, "m"), Restart(5), CheckPid(7)];
    assert FairStep(S8(cfg), ProcmanObeys(104, 5), S9(cfg));
  }

  lemma StoryStarts(cfg: Config)
    requires !cfg.debug
    ensures Started(cfg, S0(cfg))
  {
    BothStarted();
  }

  // All steps of the story are fair ones from a started system, and at its end the broker's next step
  // reads the removal of 5 as the answer about 7, so that module ONE is left registered without a process.
  lemma StaleRemovalIsLost(cfg: Config, now: Time)
    requires !cfg.debug
    ensures var h := Story(cfg); var s := h[9];
      && |h| == 10 && History(cfg, h)
      && Enabled(s, IntroEnds) && s.p.pipe[0] == Removed(5)
      && !Agreement(Next(s, IntroEnds))
  {
    hide Follows, Started, Agreement, S0, S1, S2, S3, S4, S5, S6, S7, S8, S9;
    var h := Story(cfg);
    StoryStarts(cfg);
    Step1(cfg); Step2(cfg); Step3(cfg);
    Step4(cfg); Step5(cfg); Step6(cfg, now);
    Step7(cfg); Step8(cfg); Step9(cfg);
    Lost(cfg);
  }

  lemma Lost(cfg: Config)
    requires !cfg.debug
    ensures Enabled(S9(cfg), IntroEnds) && !Agreement(Next(S9(cfg), IntroEnds))
    ensures S9(cfg).p.pipe[0] == Removed(5)
  {
    hide Hello, Broker3, Provide, FinishIntroduce, Step, CheckAll, Obey, AskPid;
    var s := S9(cfg);
    FirstRegistered(cfg);
    ReadHello(TWO, 7);
    Confirmed(s.b, TWO, 7);
    var p := Provide(s.b, "m", "f", 1, TWO, true);
    var t := Next(s, IntroEnds);
    assert s.p.pipe[1..] == [PidAnswer(true)];
    ProvideKeepsModules(s.b, TWO);
    assert ONE[9] != TWO[9];
    assert ONE in t.b.modules && t.b.modules[ONE].pid == 5;
  }

  lemma ProvideKeepsModules(s: State, id: Id)
    ensures Provide(s, "m", "f", 1, id, true).modules == s.modules
  {}
}
