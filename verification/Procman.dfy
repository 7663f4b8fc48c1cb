/** The process manager (procman.c): which processes it tracks and what it tells the broker. */
module Procman {
  import opened Wrappers
  import opened Tables
  import opened Steps
  import opened Registry

  // config_module_t; `runnable` is whether the executable can be accessed
  datatype ModuleConf = ModuleConf(instances: nat, startTimeout: nat, maxMem: nat, runnable: bool)

  // process_t: `mod` names its configuration, None for a process registered without one
  datatype Process = Process(name: string, mod: Option<string>, started: bool, onRestart: bool, startTs: nat)

  datatype PState = PState(
    conf: map<string, ModuleConf>,
    up: bool,                    // false once a null configuration has been dereferenced
    procs: map<int, Process>,
    stopAll: bool,
    pipe: seq<Frame>,            // sent to the broker and not read yet
    killed: seq<int>,            // processes killed by a restart command, oldest first
    expired: seq<string>)        // configurations of the processes that did not start in time

  function Boot(conf: map<string, ModuleConf>): PState {
    PState(conf, true, map[], false, [], [], [])
  }

  function Post(p: PState, f: Frame): PState { p.(pipe := p.pipe + [f]) }

  // start_proc: zhash_insert does not replace an entry
  function StartProc(p: PState, name: string, mod: Option<string>, pid: int, now: nat): PState {
    if pid in p.procs then p else p.(procs := p.procs[pid := Process(name, mod, false, false, now)])
  }

  // startall_item for one configured module; pids are what fork returns
  function StartInstances(p: PState, name: string, pids: seq<int>, now: nat): PState
    decreases |pids|
  {
    if pids == [] then p
    else StartInstances(StartProc(p, name, Some(name), pids[0], now), name, pids[1..], now)
  }

  // How many instances of a configured module are started
  function Wanted(conf: map<string, ModuleConf>, name: string): nat {
    if name in conf && conf[name].runnable then conf[name].instances else 0
  }

  function Needed(conf: map<string, ModuleConf>, names: seq<string>): nat {
    if names == [] then 0 else Wanted(conf, names[0]) + Needed(conf, names[1..])
  }

  // zhash_foreach(conf->modules, startall_item)
  function StartAll(p: PState, conf: map<string, ModuleConf>, names: seq<string>, pids: seq<int>, now: nat): PState
    requires Needed(conf, names) <= |pids|
    decreases |names|
  {
    if names == [] then p
    else
      var n := Wanted(conf, names[0]);
      StartAll(StartInstances(p, names[0], pids[..n], now), conf, names[1..], pids[n..], now)
  }

  // What the process manager sees of a process: whether it exists, and its memory in MB
  datatype Health = Health(alive: bool, mem: nat)

  predicate StartExpired(p: PState, proc: Process, now: nat) {
    && proc.mod.Some? && proc.mod.value in p.conf && !proc.started && proc.startTs != 0
    && now - proc.startTs > p.conf[proc.mod.value].startTimeout * 1000
  }

  // checkpid_item
  function CheckItem(p: PState, pid: int, h: Health, now: nat): PState {
    if pid !in p.procs || !p.up then p
    else
      var proc := p.procs[pid];
      if p.stopAll || proc.onRestart then p
      else if StartExpired(p, proc, now) then
        p.(procs := p.procs - {pid}, expired := p.expired + [proc.mod.value])
      else if !h.alive then
        Post(p, RestartAsked(pid)).(procs := p.procs[pid := proc.(onRestart := true)])
      else if !proc.started then p
      else if proc.mod.None? || proc.mod.value !in p.conf then p.(up := false)
      else if p.conf[proc.mod.value].maxMem != 0 && h.mem > p.conf[proc.mod.value].maxMem then
        Post(p, RestartAsked(pid))
      else p
  }

  function HealthOf(health: map<int, Health>, pid: int): Health {
    if pid in health then health[pid] else Health(true, 0)
  }

  function CheckAll(p: PState, order: seq<int>, health: map<int, Health>, now: nat): PState
    decreases |order|
  {
    if order == [] then p
    else
      CheckAll(CheckItem(p, order[0], HealthOf(health, order[0]), now), order[1..], health, now)
  }

  // s_main_event; newPid is what fork returns
  function Obey(p: PState, c: Command, newPid: int, now: nat): PState {
    match c
    case CheckPid(pid) =>
      if pid in p.procs
      then Post(p.(procs := p.procs[pid := p.procs[pid].(started := true)]), PidAnswer(true))
      else Post(p, PidAnswer(false))
    case Register(pid, name) =>
      if pid in p.procs then p
      else p.(procs := p.procs[pid := Process(name, None, false, false, 0)])
    case Restart(pid) =>
      if pid !in p.procs then p
      else
        var proc := p.procs[pid];
        var p1 := Post(p, Removed(pid)).(killed := p.killed + [pid], procs := p.procs - {pid});
        StartProc(p1, proc.name, proc.mod, newPid, now)
  }

  // ---------- instance conservation ----------

  function Tracked(p: PState, name: string): set<int> {
    set pid | pid in p.procs && p.procs[pid].mod == Some(name)
  }

  function Expired(expired: seq<string>, name: string): nat {
    if expired == [] then 0
    else Expired(expired[..|expired| - 1], name) + if expired[|expired| - 1] == name then 1 else 0
  }

  // Processes tracked for a configured module, plus those that did not start in time
  function Instances(p: PState, name: string): nat {
    |Tracked(p, name)| + Expired(p.expired, name)
  }

  lemma StartCounts(p: PState, name: string, mod: Option<string>, pid: int, now: nat, n: string)
    requires pid !in p.procs
    ensures Instances(StartProc(p, name, mod, pid, now), n) == Instances(p, n) + if mod == Some(n) then 1 else 0
  {
    var t := StartProc(p, name, mod, pid, now);
    assert Tracked(t, n) == Tracked(p, n) + if mod == Some(n) then {pid} else {};
    assert pid !in Tracked(p, n);
  }

  lemma ForgetCounts(p: PState, t: PState, pid: int, n: string)
    requires pid in p.procs && t.procs == p.procs - {pid}
    ensures |Tracked(t, n)| == |Tracked(p, n)| - if p.procs[pid].mod == Some(n) then 1 else 0
  {
    assert Tracked(t, n) == Tracked(p, n) - {pid};
  }

  lemma SameModsCount(p: PState, t: PState, n: string)
    requires t.procs.Keys == p.procs.Keys && forall pid <- p.procs :: t.procs[pid].mod == p.procs[pid].mod
    ensures |Tracked(t, n)| == |Tracked(p, n)|
  {
    forall pid ensures pid in Tracked(t, n) <==> pid in Tracked(p, n) {
      assert pid in t.procs.Keys <==> pid in p.procs.Keys;
      if pid in p.procs { assert t.procs[pid].mod == p.procs[pid].mod; }
    }
    assert Tracked(t, n) == Tracked(p, n);
  }

  // The instances of a module at start-up are the ones configured.
  lemma {:induction false} StartAllCounts(p: PState, name: string, pids: seq<int>, now: nat, n: string)
    requires forall i, j | 0 <= i < j < |pids| :: pids[i] != pids[j]
    requires forall pid <- pids :: pid !in p.procs
    ensures Instances(StartInstances(p, name, pids, now), n) == Instances(p, n) + if name == n then |pids| else 0
    decreases |pids|
  {
    if pids != [] {
      var t := StartProc(p, name, Some(name), pids[0], now);
      StartCounts(p, name, Some(name), pids[0], now, n);
      forall pid <- pids[1..] ensures pid !in t.procs { assert pid in pids; }
      StartAllCounts(t, name, pids[1..], now, n);
    }
  }

  // A command never changes the number of instances of a configured module: a restarted
  // process is replaced by one of the same module.
  lemma ObeyConserves(p: PState, c: Command, newPid: int, now: nat, n: string)
    requires newPid !in p.procs
    ensures Instances(Obey(p, c, newPid, now), n) == Instances(p, n)
  {
    var t := Obey(p, c, newPid, now);
    match c {
      case CheckPid(pid) => SameModsCount(p, t, n);
      case Register(pid, name) =>
        if pid !in p.procs { assert Tracked(t, n) == Tracked(p, n); }
      case Restart(pid) =>
        if pid in p.procs {
          var proc := p.procs[pid];
          var p1 := Post(p, Removed(pid)).(killed := p.killed + [pid], procs := p.procs - {pid});
          ForgetCounts(p, p1, pid, n);
          StartCounts(p1, proc.name, proc.mod, newPid, now, n);
        }
    }
  }

  lemma CheckItemConserves(p: PState, pid: int, h: Health, now: nat, n: string)
    ensures Instances(CheckItem(p, pid, h, now), n) == Instances(p, n)
  {
    var t := CheckItem(p, pid, h, now);
    if t.procs.Keys == p.procs.Keys {
      SameModsCount(p, t, n);
    } else {
      ForgetCounts(p, t, pid, n);
    }
  }

  lemma {:induction false} CheckAllConserves(p: PState, order: seq<int>, health: map<int, Health>, now: nat, n: string)
    ensures Instances(CheckAll(p, order, health, now), n) == Instances(p, n)
    decreases |order|
  {
    if order != [] {
      var h := HealthOf(health, order[0]);
      CheckItemConserves(p, order[0], h, now, n);
      CheckAllConserves(CheckItem(p, order[0], h, now), order[1..], health, now, n);
    }
  }

  datatype PEvent = Command(c: Command, newPid: int, at: nat) | Timer(order: seq<int>, health: map<int, Health>, at: nat)

  function PRun(p: PState, events: seq<PEvent>): PState {
    if events == [] then p
    else
      var q := PRun(p, events[..|events| - 1]);
      match events[|events| - 1]
      case Command(c, newPid, now) => Obey(q, c, newPid, now)
      case Timer(order, health, now) => CheckAll(q, order, health, now)
  }

  // fork returns a pid that is not in use.
  ghost predicate FreshForks(p: PState, events: seq<PEvent>) {
    events == [] ||
    var before, last := events[..|events| - 1], events[|events| - 1];
    FreshForks(p, before) && (last.Command? ==> last.newPid !in PRun(p, before).procs)
  }

  // Over any run of commands and checks: processes tracked plus start-timeouts of a configured
  // module stay what they were.
  lemma {:induction false} InstancesConserved(p: PState, events: seq<PEvent>, n: string)
    requires FreshForks(p, events)
    ensures Instances(PRun(p, events), n) == Instances(p, n)
  {
    if events != [] {
      var before := events[..|events| - 1];
      InstancesConserved(p, before, n);
      match events[|events| - 1] {
        case Command(c, newPid, now) => ObeyConserves(PRun(p, before), c, newPid, now, n);
        case Timer(order, health, now) => CheckAllConserves(PRun(p, before), order, health, now, n);
      }
    }
  }

  // ---------- from the start ----------

  lemma {:induction false} StartedKeys(p: PState, name: string, pids: seq<int>, now: nat)
    ensures var t := StartInstances(p, name, pids, now);
      && t.conf == p.conf && forall pid :: pid in t.procs <==> pid in p.procs || pid in pids
    decreases |pids|
  {
    if pids != [] {
      assert forall pid :: pid in pids <==> pid == pids[0] || pid in pids[1..];
      StartedKeys(StartProc(p, name, Some(name), pids[0], now), name, pids[1..], now);
    }
  }

  ghost predicate Unused(p: PState, pids: seq<int>) {
    (forall i, j | 0 <= i < j < |pids| :: pids[i] != pids[j]) && forall i | 0 <= i < |pids| :: pids[i] !in p.procs
  }

  lemma UnusedAfter(p: PState, name: string, pids: seq<int>, n: nat, now: nat)
    requires n <= |pids| && Unused(p, pids)
    ensures Unused(p, pids[..n]) && Unused(StartInstances(p, name, pids[..n], now), pids[n..])
  {
    var t := StartInstances(p, name, pids[..n], now);
    StartedKeys(p, name, pids[..n], now);
    forall i | 0 <= i < |pids[n..]| ensures pids[n..][i] !in t.procs {
      assert pids[n..][i] == pids[n + i];
    }
  }

  lemma {:induction false} StartedAsWanted(p: PState, conf: map<string, ModuleConf>, names: seq<string>, pids: seq<int>,
                                           now: nat, n: string)
    requires Needed(conf, names) <= |pids| && NoDup(names) && Unused(p, pids)
    ensures Instances(StartAll(p, conf, names, pids, now), n) == Instances(p, n) + if n in names then Wanted(conf, n) else 0
    decreases |names|
  {
    if names != [] {
      var k := Wanted(conf, names[0]);
      var t := StartInstances(p, names[0], pids[..k], now);
      UnusedAfter(p, names[0], pids, k, now);
      StartAllCounts(p, names[0], pids[..k], now, n);
      StartedAsWanted(t, conf, names[1..], pids[k..], now, n);
      assert n in names <==> n == names[0] || n in names[1..];
      assert names[0] !in names[1..];
    }
  }

  // From start-up on: after the configured modules have been started, each in as many instances as
  // module_instances says, and after any run of commands and checks with fresh forks, the processes
  // tracked for a module plus its start-timeouts are module_instances, or none if it cannot be run.
  lemma InstancesAreAsConfigured(conf: map<string, ModuleConf>, names: seq<string>, pids: seq<int>, now: nat,
                                 events: seq<PEvent>, n: string)
    requires NoDup(names) && n in names && n in conf
    requires Needed(conf, names) <= |pids| && forall i, j | 0 <= i < j < |pids| :: pids[i] != pids[j]
    requires FreshForks(StartAll(Boot(conf), conf, names, pids, now), events)
    ensures Instances(PRun(StartAll(Boot(conf), conf, names, pids, now), events), n) ==
      if conf[n].runnable then conf[n].instances else 0
  {
    StartedAsWanted(Boot(conf), conf, names, pids, now, n);
    InstancesConserved(StartAll(Boot(conf), conf, names, pids, now), events, n);
    assert Tracked(Boot(conf), n) == {};
  }

  // ---------- dead processes ----------

  lemma CheckItemFrame(p: PState, q: int, h: Health, now: nat, pid: int)
    requires q != pid
    ensures var t := CheckItem(p, q, h, now);
      && t.conf == p.conf && t.stopAll == p.stopAll
      && (pid in t.procs <==> pid in p.procs) && (pid in p.procs ==> t.procs[pid] == p.procs[pid])
      && (forall f <- p.pipe :: f in t.pipe) && (forall e <- p.expired :: e in t.expired)
  {}

  lemma {:induction false} CheckAllLeaves(p: PState, order: seq<int>, health: map<int, Health>, now: nat, pid: int)
    requires pid !in order
    ensures var t := CheckAll(p, order, health, now);
      && (pid in t.procs <==> pid in p.procs) && (pid in p.procs ==> t.procs[pid] == p.procs[pid])
      && (forall f <- p.pipe :: f in t.pipe) && (forall e <- p.expired :: e in t.expired)
    decreases |order|
  {
    hide CheckItem;
    if order != [] {
      var h := HealthOf(health, order[0]);
      CheckItemFrame(p, order[0], h, now, pid);
      CheckAllLeaves(CheckItem(p, order[0], h, now), order[1..], health, now, pid);
    }
  }

  // ---------- what a check reports ----------

  // The check comes to this process and looks at it.
  predicate LookedAt(p: PState, proc: Process, now: nat) { !p.stopAll && !proc.onRestart && !StartExpired(p, proc, now) }

  predicate OverLimit(p: PState, proc: Process, h: Health) {
    proc.mod.Some? && proc.mod.value in p.conf && p.conf[proc.mod.value].maxMem != 0 && h.mem > p.conf[proc.mod.value].maxMem
  }

  // The process is dead, or has introduced itself and holds more memory than it may.
  predicate IsReported(p: PState, proc: Process, h: Health, now: nat) {
    LookedAt(p, proc, now) && (!h.alive || (proc.started && OverLimit(p, proc, h)))
  }

  // A process that has introduced itself without being configured
  predicate IsStray(p: PState, proc: Process, h: Health, now: nat) {
    LookedAt(p, proc, now) && h.alive && proc.started && (proc.mod.None? || proc.mod.value !in p.conf)
  }

  // What the check does about one process
  ghost predicate Checked(p: PState, t: PState, pid: int, h: Health, now: nat) {
    pid in p.procs && |p.pipe| <= |t.pipe| &&
    var proc := p.procs[pid];
    && (RestartAsked(pid) in t.pipe[|p.pipe|..] <==> IsReported(p, proc, h, now))
    && (pid in t.procs <==> LookedAt(p, proc, now) || p.stopAll || proc.onRestart)
    && (pid in t.procs ==>
          t.procs[pid] == if LookedAt(p, proc, now) && !h.alive then proc.(onRestart := true) else proc)
  }

  ghost predicate ExtendsPipe(p: PState, t: PState) {
    t.conf == p.conf && t.stopAll == p.stopAll && p.pipe <= t.pipe
  }

  lemma ItemExtends(p: PState, q: int, h: Health, now: nat)
    ensures var t := CheckItem(p, q, h, now);
      && ExtendsPipe(p, t) && (p.up && q in p.procs ==> (t.up <==> !IsStray(p, p.procs[q], h, now)))
      && (t.up ==> p.up) && (q !in p.procs ==> t == p)
      && forall k | |p.pipe| <= k < |t.pipe| :: t.pipe[k] == RestartAsked(q)
  {}

  lemma ItemIsChecked(p: PState, pid: int, h: Health, now: nat)
    requires p.up && pid in p.procs && CheckItem(p, pid, h, now).up
    ensures Checked(p, CheckItem(p, pid, h, now), pid, h, now)
  {}

  lemma {:induction false} ChecksExtend(p: PState, order: seq<int>, health: map<int, Health>, now: nat)
    ensures var t := CheckAll(p, order, health, now);
      && ExtendsPipe(p, t) && (t.up ==> p.up)
      && forall k | |p.pipe| <= k < |t.pipe| :: t.pipe[k].RestartAsked? && t.pipe[k].pid in order
    decreases |order|
  {
    hide CheckItem;
    if order != [] {
      assert order == [order[0]] + order[1..];
      ItemExtends(p, order[0], HealthOf(health, order[0]), now);
      ChecksExtend(CheckItem(p, order[0], HealthOf(health, order[0]), now), order[1..], health, now);
    }
  }

  // A check asks for the restart of exactly the processes that are dead, or have introduced themselves and hold
  // more memory than their configuration allows, if that sets a limit; it forgets exactly those that did not
  // introduce themselves in time; and the dead ones are reported only once.
  lemma {:induction false} CheckReports(p: PState, order: seq<int>, health: map<int, Health>, now: nat, pid: int)
    requires NoDup(order) && pid in order && pid in p.procs && CheckAll(p, order, health, now).up
    ensures ExtendsPipe(p, CheckAll(p, order, health, now))
    ensures Checked(p, CheckAll(p, order, health, now), pid, HealthOf(health, pid), now)
    decreases |order|
  {
    hide CheckItem, LookedAt, IsReported;
    var q, rest := order[0], order[1..];
    var h := HealthOf(health, q);
    var t := CheckItem(p, q, h, now);
    var u := CheckAll(t, rest, health, now);
    assert order == [q] + rest;
    ChecksExtend(p, order, health, now);
    ChecksExtend(t, rest, health, now);
    ItemExtends(p, q, h, now);
    if q == pid {
      ItemIsChecked(p, pid, h, now);
      CheckAllLeaves(t, rest, health, now, pid);
      AddedLater(p, t, u, pid);
    } else {
      CheckItemFrame(p, q, h, now, pid);
      CheckReports(t, rest, health, now, pid);
      SameLook(p, t, p.procs[pid], HealthOf(health, pid), now);
      AddedEarlier(p, t, u, pid, q);
    }
  }

  lemma SameLook(p: PState, t: PState, proc: Process, h: Health, now: nat)
    requires t.conf == p.conf && t.stopAll == p.stopAll
    ensures LookedAt(t, proc, now) == LookedAt(p, proc, now) && IsReported(t, proc, h, now) == IsReported(p, proc, h, now)
  {}

  lemma AddedLater(p: PState, t: PState, u: PState, pid: int)
    requires p.pipe <= t.pipe <= u.pipe && forall k | |t.pipe| <= k < |u.pipe| :: u.pipe[k] != RestartAsked(pid)
    ensures RestartAsked(pid) in u.pipe[|p.pipe|..] <==> RestartAsked(pid) in t.pipe[|p.pipe|..]
  {
    var a, b := t.pipe[|p.pipe|..], u.pipe[|p.pipe|..];
    assert b == a + u.pipe[|t.pipe|..];
    assert forall k | 0 <= k < |u.pipe| - |t.pipe| :: u.pipe[|t.pipe|..][k] == u.pipe[|t.pipe| + k];
  }

  lemma AddedEarlier(p: PState, t: PState, u: PState, pid: int, q: int)
    requires p.pipe <= t.pipe <= u.pipe && q != pid && forall k | |p.pipe| <= k < |t.pipe| :: t.pipe[k] == RestartAsked(q)
    ensures RestartAsked(pid) in u.pipe[|p.pipe|..] <==> RestartAsked(pid) in u.pipe[|t.pipe|..]
  {
    assert u.pipe[|p.pipe|..] == t.pipe[|p.pipe|..] + u.pipe[|t.pipe|..];
  }

  // The check meets a null configuration exactly at a process that has introduced itself without being configured.
  lemma {:induction false} CheckStaysUp(p: PState, order: seq<int>, health: map<int, Health>, now: nat)
    requires p.up && NoDup(order)
    ensures CheckAll(p, order, health, now).up <==>
      forall pid <- order | pid in p.procs :: !IsStray(p, p.procs[pid], HealthOf(health, pid), now)
    decreases |order|
  {
    hide CheckItem;
    if order != [] {
      var q, rest := order[0], order[1..];
      var t := CheckItem(p, q, HealthOf(health, q), now);
      assert order == [q] + rest;
      ItemExtends(p, q, HealthOf(health, q), now);
      if t.up {
        forall pid <- rest ensures pid in t.procs <==> pid in p.procs
          ensures pid in p.procs ==> t.procs[pid] == p.procs[pid]
        {
          CheckItemFrame(p, q, HealthOf(health, q), now, pid);
        }
        CheckStaysUp(t, rest, health, now);
      } else {
        ChecksExtend(t, rest, health, now);
        assert q in order && q in p.procs;
      }
    }
  }

  // A check of every process finds each one that has died: the broker is asked to restart it and
  // it is not reported again, unless it had not even started in time, when it is forgotten.
  lemma {:induction false} DeadAreReported(p: PState, order: seq<int>, health: map<int, Health>, now: nat, pid: int)
    requires !p.stopAll && NoDup(order) && pid in order && CheckAll(p, order, health, now).up
    requires pid in p.procs && !p.procs[pid].onRestart && pid in health && !health[pid].alive
    ensures var t := CheckAll(p, order, health, now);
      if StartExpired(p, p.procs[pid], now) then pid !in t.procs && p.procs[pid].mod.value in t.expired
      else RestartAsked(pid) in t.pipe && t.procs[pid := p.procs[pid].(onRestart := true)] == t.procs
    decreases |order|
  {
    var h := HealthOf(health, order[0]);
    var q := CheckItem(p, order[0], h, now);
    if order[0] == pid {
      ChecksExtend(q, order[1..], health, now);
      CheckAllLeaves(q, order[1..], health, now, pid);
      if StartExpired(p, p.procs[pid], now) { assert q.expired[|p.expired|] in q.expired; }
      else { assert q.pipe[|p.pipe|] in q.pipe; }
    } else {
      CheckItemFrame(p, order[0], h, now, pid);
      DeadAreReported(q, order[1..], health, now, pid);
    }
  }

  // A process that the broker registers although the manager does not know it - which happens in debug mode - has
  // no configuration. When its module introduces itself again, the next check that finds it alive meets null.
  lemma StrangerBringsManagerDown(p: PState, pid: int, name: string, forks: (int, int), at: (nat, nat),
                                  order: seq<int>, health: map<int, Health>, now: nat)
    requires p.up && pid !in p.procs && !p.stopAll
    requires NoDup(order) && pid in order && HealthOf(health, pid).alive
    ensures var q := Obey(Obey(p, Register(pid, name), forks.0, at.0), CheckPid(pid), forks.1, at.1);
      q.pipe == p.pipe + [PidAnswer(true)] && !CheckAll(q, order, health, now).up
  {
    var q := Obey(Obey(p, Register(pid, name), forks.0, at.0), CheckPid(pid), forks.1, at.1);
    assert IsStray(q, q.procs[pid], HealthOf(health, pid), now);
    CheckStaysUp(q, order, health, now);
  }

  // ---------- starting in time ----------

  // The process is not restarted.
  predicate LeavesAlone(e: PEvent, pid: int) { e.Command? ==> e.c != Restart(pid) }

  lemma {:induction false} StartedStaysInCheck(p: PState, order: seq<int>, health: map<int, Health>, now: nat, pid: int)
    requires pid in p.procs && p.procs[pid].started
    ensures var t := CheckAll(p, order, health, now); pid in t.procs && t.procs[pid].started
    decreases |order|
  {
    if order != [] { StartedStaysInCheck(CheckItem(p, order[0], HealthOf(health, order[0]), now), order[1..], health, now, pid); }
  }

  // A process whose pid a module has introduced itself with is never given up for starting late: it stays in the
  // table until the broker has it restarted.
  lemma {:induction false} IntroducedIsKept(p: PState, pid: int, newPid: int, now: nat, events: seq<PEvent>)
    requires pid in p.procs && forall k | 0 <= k < |events| :: LeavesAlone(events[k], pid)
    ensures var t := PRun(Obey(p, CheckPid(pid), newPid, now), events); pid in t.procs && t.procs[pid].started
  {
    if events != [] {
      var before, last := events[..|events| - 1], events[|events| - 1];
      IntroducedIsKept(p, pid, newPid, now, before);
      assert LeavesAlone(last, pid);
      var q := PRun(Obey(p, CheckPid(pid), newPid, now), before);
      match last {
        case Command(c, fork, at) =>
        case Timer(order, health, at) => StartedStaysInCheck(q, order, health, at, pid);
      }
    }
  }

  // The process is gone, or has not introduced itself and is as it was started.
  ghost predicate NotStarted(p: PState, pid: int, name: string, since: nat) {
    pid in p.procs ==> p.procs[pid].mod == Some(name) && !p.procs[pid].started && p.procs[pid].startTs == since
  }

  // No module introduces itself with this pid, and no other process gets it.
  predicate IsSilent(e: PEvent, pid: int) {
    match e
    case Command(c, newPid, _) => c != CheckPid(pid) && newPid != pid && !(c.Register? && c.pid == pid)
    case Timer(_, _, _) => true
  }

  lemma {:induction false} CheckKeepsClock(p: PState, order: seq<int>, health: map<int, Health>, now: nat, pid: int, name: string,
                                           since: nat)
    requires NotStarted(p, pid, name, since)
    ensures var t := CheckAll(p, order, health, now); NotStarted(t, pid, name, since) && t.conf == p.conf
    decreases |order|
  {
    if order != [] {
      CheckKeepsClock(CheckItem(p, order[0], HealthOf(health, order[0]), now), order[1..], health, now, pid, name, since);
    }
  }

  lemma {:induction false} ClockIsKept(p: PState, pid: int, name: string, since: nat, events: seq<PEvent>)
    requires NotStarted(p, pid, name, since) && forall k | 0 <= k < |events| :: IsSilent(events[k], pid)
    ensures NotStarted(PRun(p, events), pid, name, since) && PRun(p, events).conf == p.conf
  {
    if events != [] {
      var before, last := events[..|events| - 1], events[|events| - 1];
      ClockIsKept(p, pid, name, since, before);
      assert IsSilent(last, pid);
      if last.Timer? { CheckKeepsClock(PRun(p, before), last.order, last.health, last.at, pid, name, since); }
    }
  }

  // A process that was started for a configured module, under a pid that was free, and whose pid no module has
  // introduced itself with since, is given up by a check exactly if its start time has run out by then - unless
  // it is being restarted.
  lemma LateIsGivenUp(p: PState, name: string, pid: int, since: nat, events: seq<PEvent>, order: seq<int>,
                      health: map<int, Health>, now: nat)
    requires name in p.conf && pid !in p.procs && since != 0 && forall k | 0 <= k < |events| :: IsSilent(events[k], pid)
    requires var q := PRun(StartProc(p, name, Some(name), pid, since), events);
      && pid in q.procs && !q.procs[pid].onRestart && !q.stopAll
      && NoDup(order) && pid in order && CheckAll(q, order, health, now).up
    ensures var q := PRun(StartProc(p, name, Some(name), pid, since), events);
      pid in CheckAll(q, order, health, now).procs <==> now - since <= p.conf[name].startTimeout * 1000
  {
    hide CheckAll, PRun;
    var q0 := StartProc(p, name, Some(name), pid, since);
    ClockIsKept(q0, pid, name, since, events);
    CheckReports(PRun(q0, events), order, health, now, pid);
  }

  // ---------- the process manager itself ----------

  class Manager {
    const conf: map<string, ModuleConf>
    var up: bool
    var procs: map<int, Process>
    var stopAll: bool
    var pipe: seq<Frame>
    var killed: seq<int>
    var expired: seq<string>

    ghost function St(): PState
      reads this
    {
      PState(conf, up, procs, stopAll, pipe, killed, expired)
    }

    constructor (conf: map<string, ModuleConf>)
      ensures St() == Boot(conf)
    {
      this.conf := conf;
      up, stopAll := true, false;
      procs, pipe, killed, expired := map[], [], [], [];
    }

    method StartProcess(name: string, mod: Option<string>, pid: int, now: nat)
      modifies this`procs
      ensures St() == StartProc(old(St()), name, mod, pid, now)
    {
      if pid !in procs { procs := procs[pid := Process(name, mod, false, false, now)]; }
    }

    // startall_item: one fork per configured instance, if the executable is there
    method StartModule(name: string, pids: seq<int>, now: nat)
      requires name in conf && |pids| >= Wanted(conf, name)
      modifies this`procs
      ensures St() == if conf[name].runnable
        then StartInstances(old(St()), name, pids[..conf[name].instances], now) else old(St())
    {
      if !conf[name].runnable { return; }
      ghost var mine := pids[..conf[name].instances];
      var count := 0;
      while count < conf[name].instances
        invariant 0 <= count <= |mine|
        invariant StartInstances(old(St()), name, mine, now) == StartInstances(St(), name, mine[count..], now)
      {
        assert mine[count..][1..] == mine[count + 1..];
        StartProcess(name, Some(name), pids[count], now);
        count := count + 1;
      }
    }

    method StartModules(names: seq<string>, pids: seq<int>, now: nat)
      requires Needed(conf, names) <= |pids|
      requires forall k | 0 <= k < |names| :: names[k] in conf
      modifies this`procs
      ensures St() == StartAll(old(St()), conf, names, pids, now)
    {
      var k, left := 0, pids;
      while k < |names|
        invariant 0 <= k <= |names| && Needed(conf, names[k..]) <= |left|
        invariant StartAll(old(St()), conf, names, pids, now) == StartAll(St(), conf, names[k..], left, now)
      {
        var n := Wanted(conf, names[k]);
        assert names[k..][1..] == names[k + 1..];
        assert conf[names[k]].runnable ==> left[..n] == left[..conf[names[k]].instances];
        StartModule(names[k], left, now);
        assert !conf[names[k]].runnable ==> left[..n] == [];
        left := left[n..];
        k := k + 1;
      }
    }

    method CheckProcess(pid: int, h: Health, now: nat)
      requires pid in procs && up
      modifies this
      ensures St() == CheckItem(old(St()), pid, h, now)
    {
      var proc := procs[pid];
      if stopAll || proc.onRestart { return; }
      if proc.mod.Some? && proc.mod.value in conf && !proc.started && proc.startTs != 0 &&
         now - proc.startTs > conf[proc.mod.value].startTimeout * 1000 {
        procs := procs - {pid};
        expired := expired + [proc.mod.value];
        return;
      }
      if !h.alive {
        pipe := pipe + [RestartAsked(pid)];
        procs := procs[pid := proc.(onRestart := true)];
        return;
      }
      if proc.started {
        if proc.mod.None? || proc.mod.value !in conf { up := false; return; }
        if conf[proc.mod.value].maxMem != 0 && h.mem > conf[proc.mod.value].maxMem {
          pipe := pipe + [RestartAsked(pid)];
        }
      }
    }

    // checkpid_event
    method CheckProcesses(order: seq<int>, health: map<int, Health>, now: nat)
      modifies this
      ensures St() == CheckAll(old(St()), order, health, now)
    {
      var k := 0;
      while k < |order|
        invariant 0 <= k <= |order|
        invariant CheckAll(old(St()), order, health, now) == CheckAll(St(), order[k..], health, now)
      {
        var h := if order[k] in health then health[order[k]] else Health(true, 0);
        if order[k] in procs && up { CheckProcess(order[k], h, now); }
        k := k + 1;
      }
    }

    // s_main_event
    method OnCommand(c: Command, newPid: int, now: nat)
      modifies this
      ensures St() == Obey(old(St()), c, newPid, now)
    {
      match c {
        case CheckPid(pid) =>
          if pid in procs { procs := procs[pid := procs[pid].(started := true)]; }
          pipe := pipe + [PidAnswer(pid in procs)];
        case Register(pid, name) =>
          if pid !in procs { procs := procs[pid := Process(name, None, false, false, 0)]; }
        case Restart(pid) =>
          if pid in procs {
            var proc := procs[pid];
            killed := killed + [pid];
            pipe := pipe + [Removed(pid)];
            procs := procs - {pid};
            StartProcess(proc.name, proc.mod, newPid, now);
          }
      }
    }
  }
}
