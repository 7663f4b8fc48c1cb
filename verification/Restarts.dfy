/** When a process that has died is replaced. The process manager reports it once and then leaves the
    entry alone until the broker commands the restart, which it does only for a registered module. */
module Restarts {
  import opened Tables
  import opened Steps
  import opened Registry
  import opened InFlight
  import opened Procman
  import opened System

  // Reported to the broker, and not looked at again
  predicate Reported(p: PState, pid: int) { pid in p.procs && p.procs[pid].onRestart }

  ghost predicate HasModule(b: State, pid: int) { exists id <- b.modules :: b.modules[id].pid == pid }

  // The broker asks for the restart at once, or notes that it is due.
  ghost predicate Heeded(s: State, t: State, pid: int) {
    || t.commands == s.commands + [Restart(pid)]
    || exists id <- t.modules :: t.modules[id].pid == pid && t.modules[id].needRestart
  }

  // The broker does something about the report of a dead process exactly if a module of that
  // process is registered; otherwise it forgets it.
  lemma ReportIsHeeded(s: State, pid: int, order: seq<Id>)
    requires pid != 0 && (forall id <- s.modules :: id in order) && RestartNotIdle(s)
    ensures var t := OnProcman(s, RestartAsked(pid), order);
      && (Heeded(s, t, pid) <==> HasModule(s, pid))
      && (!HasModule(s, pid) ==> t == s)
  {
    FoundByPid(s.modules, order, pid);
    var t := OnProcman(s, RestartAsked(pid), order);
    var hit := FirstWithPid(s.modules, order, pid);
    if hit.Some? {
      assert t.modules[hit.value].pid == pid;
    } else {
      assert t == s;
      assert |s.commands + [Restart(pid)]| != |s.commands|;
    }
  }

  // Whatever the process manager reports about a process, it touches that process's module alone: a removal takes
  // it out of the table and of every interface, and leaves every other provider listed.
  lemma ReportTouchesItsOwn(s: State, f: Frame, order: seq<Id>)
    requires RegistryOk(s) && forall id <- s.modules :: id in order
    ensures var t := OnProcman(s, f, order);
      && t.queue == s.queue && t.sent == s.sent && t.dropped == s.dropped && t.fabs == s.fabs
      && (forall id <- s.modules | s.modules[id].pid != FramePid(f) :: id in t.modules && t.modules[id] == s.modules[id])
      && (f.Removed? && f.pid != 0 && HasModule(s, f.pid) ==>
            exists id <- s.modules :: s.modules[id].pid == f.pid && t.modules == s.modules - {id} && OnlyTakesOut(s, t, id))
      && (!f.Removed? ==> t.store == s.store && t.registry == s.registry)
  {
    hide RegistryOk, IfaceRemove, OnlyTakesOut;
    FoundByPid(s.modules, order, FramePid(f));
    var hit := FirstWithPid(s.modules, order, FramePid(f));
    if f.Removed? && f.pid != 0 && hit.Some? { RemoveTakesOut(s, hit.value); }
  }

  lemma RemoveTakesOut(s: State, id: Id)
    requires RegistryOk(s)
    ensures OnlyTakesOut(s, RemoveModule(s, id), id)
    ensures var t := RemoveModule(s, id); t == s.(store := t.store, registry := t.registry, modules := s.modules - {id})
  {
    RemoveSparesOthers(s, id, s.modules.Keys, s.fabs.Keys);
    hide IfaceRemove, RegistryOk;
    IfaceRemoveFrame(s, id);
  }

  lemma IfaceRemoveFrame(s: State, id: Id)
    ensures var t := IfaceRemove(s, id); t == s.(store := t.store, registry := t.registry)
  {}

  lemma {:induction false} ReportedStays(p: PState, order: seq<int>, health: map<int, Health>, at: nat, pid: int)
    requires Reported(p, pid)
    ensures Reported(CheckAll(p, order, health, at), pid)
    decreases |order|
  {
    if order != [] {
      var h := HealthOf(health, order[0]);
      ReportedStays(CheckItem(p, order[0], h, at), order[1..], health, at, pid);
    }
  }

  lemma {:induction false} AbsentStays(p: PState, order: seq<int>, health: map<int, Health>, at: nat, pid: int)
    requires pid !in p.procs
    ensures pid !in CheckAll(p, order, health, at).procs
    decreases |order|
  {
    if order != [] {
      var h := HealthOf(health, order[0]);
      AbsentStays(CheckItem(p, order[0], h, at), order[1..], health, at, pid);
    }
  }

  // The command that this step carries out is a restart of pid.
  predicate Restarts(s: Sys, act: Act, pid: int) {
    act.ProcmanObeys? && s.taken < |s.b.commands| && s.b.commands[s.taken] == Restart(pid)
  }

  lemma StepReplaces(s: Sys, act: Act, pid: int)
    requires SysOk(s) && Enabled(s, act) && FairAct(s, act) && pid in s.seen
    ensures var t := Next(s, act);
      && pid in t.seen && s.taken <= t.taken <= s.taken + 1
      && (t.taken > s.taken ==> act.ProcmanObeys?)
      && (Reported(s.p, pid) ==> if Restarts(s, act, pid) then pid !in t.p.procs else Reported(t.p, pid))
      && (pid !in s.p.procs ==> pid !in t.p.procs)
  {
    hide Sound, Step, FinishIntroduce, AskPid;
    match act {
      case ProcmanChecks(order, health, at) =>
        if pid in s.p.procs {
          if s.p.procs[pid].onRestart { ReportedStays(s.p, order, health, at, pid); }
        } else {
          AbsentStays(s.p, order, health, at, pid);
        }
      case ProcmanObeys(newPid, at) =>
        if s.b.commands[s.taken].Register? { assert StartedIn(s.p.procs, s.b.commands[s.taken].pid); }
      case _ =>
    }
  }

  lemma TakenOnlyGrows(cfg: Config, h: seq<Sys>, i: nat, j: nat)
    requires History(cfg, h) && i <= j < |h|
    ensures h[i].taken <= h[j].taken <= |h[j].b.commands|
    decreases j
  {
    hide Step, FinishIntroduce, AskPid, CheckAll, Obey;
    HistoryOk(cfg, h, j);
    if i < j {
      TakenOnlyGrows(cfg, h, i, j - 1);
      HistoryOk(cfg, h, j - 1);
      assert Follows(h[j - 1], h[j - 1 + 1]);
    }
  }

  // A dead process that has been reported is gone from the process table exactly if a restart of it
  // has been carried out since.
  lemma {:induction false} ReplacedIffRestarted(cfg: Config, h: seq<Sys>, i: nat, j: nat, pid: int)
    requires History(cfg, h) && i <= j < |h| && Reported(h[i].p, pid)
    ensures h[i].taken <= h[j].taken <= |h[j].b.commands| && pid in h[j].seen
    ensures pid !in h[j].p.procs <==> Restart(pid) in h[j].b.commands[h[i].taken..h[j].taken]
    ensures pid in h[j].p.procs ==> Reported(h[j].p, pid)
    decreases j
  {
    hide Reported, Restarts, SysOk;
    TakenOnlyGrows(cfg, h, i, j);
    if i == j {
      ReportedIsSeen(cfg, h, i, pid);
    } else {
      ReplacedIffRestarted(cfg, h, i, j - 1, pid);
      ReplacedByOneStep(cfg, h, i, j, pid);
    }
  }

  lemma ReportedIsSeen(cfg: Config, h: seq<Sys>, i: nat, pid: int)
    requires History(cfg, h) && i < |h| && Reported(h[i].p, pid)
    ensures pid in h[i].seen && pid in h[i].p.procs
  {
    HistoryOk(cfg, h, i);
  }

  lemma ReplacedByOneStep(cfg: Config, h: seq<Sys>, i: nat, j: nat, pid: int)
    requires History(cfg, h) && i < j < |h| && pid in h[j - 1].seen
    requires h[i].taken <= h[j - 1].taken <= |h[j - 1].b.commands|
    requires pid !in h[j - 1].p.procs <==> Restart(pid) in h[j - 1].b.commands[h[i].taken..h[j - 1].taken]
    requires pid in h[j - 1].p.procs ==> Reported(h[j - 1].p, pid)
    ensures pid in h[j].seen && h[i].taken <= h[j].taken <= |h[j].b.commands|
    ensures pid !in h[j].p.procs <==> Restart(pid) in h[j].b.commands[h[i].taken..h[j].taken]
    ensures pid in h[j].p.procs ==> Reported(h[j].p, pid)
  {
    hide SysOk, Next, FairAct, Enabled;
    var s, t := h[j - 1], h[j];
    HistoryOk(cfg, h, j - 1);
    HistoryOk(cfg, h, j);
    TakenOnlyGrows(cfg, h, i, j);
    CommandsOnlyGrow(cfg, h, j - 1, j);
    assert Follows(h[j - 1], h[j - 1 + 1]);
    var act :| FairStep(s, act, t);
    StepReplaces(s, act, pid);
    var before, after := s.b.commands[h[i].taken..s.taken], t.b.commands[h[i].taken..t.taken];
    assert forall k | 0 <= k < |s.b.commands| :: t.b.commands[k] == s.b.commands[k];
    if t.taken == s.taken {
      assert after == before;
      assert !Restarts(s, act, pid) by { TakesOne(s, act, t); }
    } else {
      TakesOne(s, act, t);
      assert after == before + [s.b.commands[s.taken]];
    }
  }

  lemma TakesOne(s: Sys, act: Act, t: Sys)
    requires FairStep(s, act, t)
    ensures act.ProcmanObeys? <==> t.taken == s.taken + 1
    ensures act.ProcmanObeys? ==> s.taken < |s.b.commands|
  {}

  // As long as no module of that process is registered, no restart of it is commanded, so it stays in
  // the table as it is: a process that dies before it has registered is never replaced.
  lemma {:induction false} NeverReplacedUnregistered(cfg: Config, h: seq<Sys>, i: nat, j: nat, pid: int)
    requires History(cfg, h) && i <= j < |h| && Reported(h[i].p, pid)
    requires Restart(pid) !in h[i].b.commands
    requires forall k | i <= k < j :: !HasModule(h[k].b, pid)
    ensures Restart(pid) !in h[j].b.commands && Reported(h[j].p, pid)
    decreases j
  {
    hide Reported, HasModule, SysOk;
    if i < j {
      NeverReplacedUnregistered(cfg, h, i, j - 1, pid);
      NoNewRestart(cfg, h, j, pid);
      ReplacedIffRestarted(cfg, h, i, j, pid);
    }
  }

  lemma NoNewRestart(cfg: Config, h: seq<Sys>, j: nat, pid: int)
    requires History(cfg, h) && 0 < j < |h| && !HasModule(h[j - 1].b, pid) && Restart(pid) !in h[j - 1].b.commands
    ensures Restart(pid) !in h[j].b.commands
  {
    hide FinishIntroduce, Step, Obey, CheckAll;
    var s, t := h[j - 1], h[j];
    HistoryOk(cfg, h, j - 1);
    assert Follows(h[j - 1], h[j - 1 + 1]);
    var act :| FairStep(s, act, t);
    match act {
      case BrokerDoes(e, now) => NewCommands(s.b, t.b, pid) by { StepGrowth(s.b, e, now); }
      case BrokerReads(order, now) =>
        NewCommands(s.b, t.b, pid) by { StepGrowth(s.b, FromProcman(s.p.pipe[0], order), now); }
      case IntroEnds =>
        FinishIntroduceKeepsRegistry(s.b, s.waiting.value.m, TakenForYes(s.p.pipe[0]), s.waiting.value.keys);
      case _ =>
    }
  }

  lemma NewCommands(s: State, t: State, pid: int)
    requires Growth(s, t) && !HasModule(s, pid) && Restart(pid) !in s.commands
    ensures Restart(pid) !in t.commands
  {
    var more := t.commands[|s.commands|..];
    assert t.commands == s.commands + more;
    forall c <- more ensures c != Restart(pid) { assert RestartsOneOf(s.modules, c); }
  }
}
