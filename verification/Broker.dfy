/** The broker itself: proxy_t and the handlers of modbusd.c and interface.c that update it in place.
    Each method is proved to do what the function of the same name in Steps or Tables says. */
module Broker {
  import opened Wrappers
  import opened Text
  import opened Messages
  import opened Tables
  import S = Steps
  import opened Registry
  import opened ZLists

  class Broker {
    const cfg: Config
    const ifaces: ZList<Ref>
    var up: bool
    var modules: map<Id, Module>
    var fabs: map<Id, bool>
    var store: seq<Iface>
    var queue: map<ActionId, Call>
    var sent: seq<Sent>
    var commands: seq<Command>
    var dropped: seq<Drop>

    ghost predicate Valid()
      reads this, ifaces
    {
      ifaces.Valid() && NoDup(ifaces.items) && forall r <- ifaces.items :: r < |store|
    }

    // The abstract state
    ghost function St(): State
      reads this, ifaces
    {
      State(cfg, up, modules, fabs, store, ifaces.items, queue, sent, commands, dropped)
    }

    constructor (cfg: Config)
      ensures Valid() && fresh(ifaces) && St() == Init(cfg)
    {
      this.cfg := cfg;
      ifaces := new ZList();
      up := true;
      modules, fabs, store, queue := map[], map[], [], map[];
      sent, commands, dropped := [], [], [];
    }

    method SendMessage(to: Id, kind: Kind, actionid: ActionId, body: Value)
      requires Valid()
      modifies this`sent
      ensures Valid() && St() == Send(old(St()), to, kind, actionid, body)
    {
      sent := sent + [Sent(to, |to| <= LOCAL_ID_LENGTH || to in fabs, kind, actionid, body)];
    }

    // ---------- interface.c ----------

    method CheckInterface(mod: string, func: string, ver: U64) returns (hit: Option<Ref>)
      requires Valid()
      modifies ifaces
      ensures Valid() && St() == old(St())
      ensures hit == Tables.CheckInterface(St(), mod, func, ver)
    {
      ghost var n := 0;
      ghost var registry := ifaces.items;
      hit := ifaces.First();
      while hit.Some?
        invariant Valid() && ifaces.items == registry && St() == old(St())
        invariant 0 <= n <= |registry|
        invariant hit.Some? ==> n < |registry| && ifaces.cursor == n && hit.value == registry[n]
        invariant hit.None? ==> n == |registry|
        invariant CheckFrom(store, registry, mod, func, ver) == CheckFrom(store, registry[n..], mod, func, ver)
        decreases |registry| - n
      {
        assert registry[n] in registry;
        if Serves(store[hit.value], mod, func, ver) { return; }
        hit := ifaces.Next();
        n := n + 1;
      }
    }

    method Provide(mod: string, func: string, ver: U64, id: Id, asLocal: bool)
      requires Valid()
      modifies this`up, this`store, ifaces
      ensures Valid() && St() == Tables.Provide(old(St()), mod, func, ver, id, asLocal)
    {
      CheckFromSpec(store, ifaces.items, mod, func, ver);
      var hit := CheckInterface(mod, func, ver);
      match hit {
        case Some(r) =>
          assert r in ifaces.items;
          store := store[r := AppendId(store[r], id, asLocal)];
        case None =>
          if ver == 0 { up := false; return; }
          NoDupAppend(ifaces.items, |store|);
          store := store + [AppendId(Iface(mod, func, ver, [], []), id, asLocal)];
          ifaces.Append(|store| - 1);
      }
    }

    // Store the interface under the cursor again; if it is empty now, unlist it.
    method UpdateCurrent(r: Ref, i: Iface, ghost live: seq<Ref>, ghost rest: seq<Ref>)
      requires ifaces.Valid() && ifaces.items == live + [r] + rest && ifaces.cursor == |live|
      requires r !in live && r < |store|
      modifies this`store, ifaces
      ensures ifaces.Valid() && store == old(store)[r := i]
      ensures if EmptyIface(i)
        then ifaces.items == live + rest && ifaces.cursor == |live| - 1
        else ifaces.items == live + [r] + rest && ifaces.cursor == |live|
    {
      store := store[r := i];
      if EmptyIface(i) {
        RemoveAt(live, r, rest);
        ifaces.Remove(r);
      }
    }

    // Deletes interfaces from the list it is walking.
    method PurgeAll(id: Id)
      requires ifaces.Valid() && NoDup(ifaces.items)
      requires forall k | 0 <= k < |ifaces.items| :: ifaces.items[k] < |store|
      modifies this`store, ifaces
      ensures ifaces.Valid()
      ensures Purging(store, ifaces.items) == PurgedUpTo(old(store), old(ifaces.items), |old(ifaces.items)|, id)
    {
      hide PurgedUpTo, NoDup;
      ghost var n := 0;
      ghost var registry := ifaces.items;
      ghost var live: seq<Ref>, ahead := [], registry;
      NothingPurged(store, registry, id);
      var cur := ifaces.First();
      while cur.Some?
        invariant ifaces.Valid()
        invariant n + |ahead| == |registry| && ahead == registry[n..]
        invariant ifaces.items == live + ahead
        invariant cur.Some? ==> ahead != [] && cur.value == ahead[0] && ifaces.cursor == |live|
        invariant cur.None? ==> ahead == []
        invariant PurgedUpTo(old(store), registry, n, id) == Purging(store, live)
        decreases |ahead|
      {
        var r := cur.value;
        Ahead(old(store), registry, n, id);
        OneMorePurged(old(store), registry, n, id);
        var i := PurgeIface(store[r], id);
        UpdateCurrent(r, i, live, ahead[1..]);
        if !EmptyIface(i) { live := live + [r]; }
        n, ahead := n + 1, ahead[1..];
        cur := ifaces.Next();
      }
    }

    method IfaceRemove(id: Id)
      requires Valid()
      modifies this`store, ifaces
      ensures Valid() && St() == Tables.IfaceRemove(old(St()), id)
    {
      assert forall k | 0 <= k < |ifaces.items| :: ifaces.items[k] in ifaces.items;
      PurgedAll(store, ifaces.items, id);
      PurgeAll(id);
    }

    // ---------- placeCall ----------

    // The walk over candidate modules; a fault means it hit an id that is not registered.
    method WalkCandidates(i: Iface) returns (found: Option<Id>, fault: bool)
      requires Valid()
      ensures (if fault then S.Fault else S.Walked(found)) == S.WalkIds(modules, S.Candidates(cfg.walk, i), None)
    {
      found, fault := None, false;
      var ids, k := S.Candidates(cfg.walk, i), 0;
      while k < |ids|
        invariant 0 <= k <= |ids| && !fault
        invariant S.WalkIds(modules, ids, None) == S.WalkIds(modules, ids[k..], found)
      {
        if ids[k] !in modules { fault := true; return; }
        if modules[ids[k]].state.Idle? { found := Some(ids[k]); }
        k := k + 1;
      }
    }

    // The first time a call is looked at
    method BindCall(message: Call) returns (c: Call)
      requires Valid()
      modifies ifaces
      ensures Valid() && St() == old(St()) && c == S.Bind(St(), message)
    {
      c := message;
      if c.iface.None? {
        CheckFromSpec(store, ifaces.items, c.mod, c.func, c.ver);
        var hit := CheckInterface(c.mod, c.func, c.ver);
        if hit.None? { return; }
        assert hit.value in ifaces.items;
        c := c.(iface := hit);
        if c.local { c := c.(globals := store[hit.value].globals); }
      }
    }

    // Send a call that has been given a destination.
    method SendRouted(call: Call, to: Id, now: Time) returns (c: Call)
      requires Valid() && call.routedVia == Some(to)
      modifies this`modules, this`sent
      ensures Valid() && S.Placed(St(), c, 0) == S.Dispatch(old(St()), call, to, now)
    {
      if to in modules && modules[to].state.Idle? {
        modules := modules[to := modules[to].(state := Busy)];
        c := call.(procTs := now);
        SendMessage(to, CallOut(!c.local, false), c.actionid, c.body);
      } else {
        c := call.(outTs := now);
        SendMessage(to, CallOut(!c.local, true), c.actionid, c.body);
      }
    }

    method PlaceCall(message: Call, now: Time) returns (c: Call, rc: int)
      requires Valid()
      modifies this`up, this`modules, this`sent, ifaces
      ensures Valid() && S.Placed(St(), c, rc) == S.PlaceCall(old(St()), message, now)
    {
      c, rc := message, 0;
      if c.routedVia.Some? { return; }
      c := BindCall(message);
      if c.iface.None? { rc := -1; return; }
      ghost var s, bound := St(), c;
      var i := At(store, c.iface.value);
      if i.locals != [] {
        var found, fault := WalkCandidates(i);
        if fault { up := false; return; }
        c := c.(routedVia := found);
      } else if c.local && c.globals != [] {
        c := c.(routedVia := Some(S.NextGlobal(c.globals)));
      }
      if c.routedVia.Some? {
        assert S.Route(s, bound, i) == S.To(c.routedVia.value);
        c := SendRouted(c, c.routedVia.value, now);
      } else {
        assert S.Route(s, bound, i) == S.Nowhere && c == bound;
      }
    }

    // zhash_foreach(proxy->queue, placeCall)
    method Drain(order: seq<ActionId>, now: Time)
      requires Valid()
      modifies this`up, this`modules, this`sent, this`queue, ifaces
      ensures Valid() && St() == S.Drain(old(St()), order, now)
    {
      var k := 0;
      while k < |order| && up
        invariant 0 <= k <= |order| && Valid()
        invariant S.Drain(old(St()), order, now) == S.Drain(St(), order[k..], now)
      {
        if order[k] in queue {
          ghost var s := St();
          var c, rc := PlaceCall(queue[order[k]], now);
          queue := queue[order[k] := c];
          assert St() == S.PlaceQueued(s, order[k], now).st;
          if rc != 0 { return; }
        }
        k := k + 1;
      }
    }

    // ---------- messages ----------

    method ProcessCall(m: S.Msg, now: Time)
      requires Valid()
      modifies this`up, this`modules, this`sent, this`queue, this`dropped, ifaces
      ensures Valid() && St() == S.ProcessCall(old(St()), m, now)
    {
      var call := S.CallOf(m, now);
      if call.None? {
        SendMessage(m.identity, Answer, m.actionid, Raised(m.actionid, WrongCall));
        return;
      }
      var c, rc := PlaceCall(call.value, now);
      if !up { return; }
      if rc != -1 {
        if !m.local && c.routedVia.None? {
          SendMessage(m.identity, Answer, m.actionid, Raised(m.actionid, NoModules));
          return;
        }
        if m.actionid in queue {
          dropped := dropped + [Drop(m.actionid, m.identity, DuplicateId)];
        } else {
          queue := queue[c.actionid := c];
        }
      } else {
        SendMessage(m.identity, Answer, m.actionid, Raised(m.actionid, NoModules));
      }
    }

    // Put the module that answered back to work.
    method Release(id: Id, order: seq<ActionId>, now: Time)
      requires Valid()
      modifies this`up, this`modules, this`sent, this`queue, this`commands, ifaces
      ensures Valid() && St() == S.Release(old(St()), id, order, now)
    {
      if id in modules {
        if modules[id].needRestart {
          commands := commands + [Restart(modules[id].pid)];
        } else {
          modules := modules[id := modules[id].(state := Idle)];
          Drain(order, now);
        }
      }
    }

    method ProcessResult(m: S.Msg, order: seq<ActionId>, now: Time)
      requires Valid()
      modifies this, ifaces
      ensures Valid() && St() == S.ProcessResult(old(St()), m, order, now)
    {
      if m.actionid !in queue {
        ProcessIfaceList(m);
        return;
      }
      var stored := queue[m.actionid];
      if m.local && stored.local {
        SendMessage(stored.identity, Answer, m.actionid, m.body);
        queue := queue - {m.actionid};
        Release(m.identity, order, now);
      } else if stored.local {
        SendMessage(stored.identity, Answer, m.actionid, m.body);
        queue := queue - {m.actionid};
      } else if m.local {
        if stored.identity in fabs { SendMessage(stored.identity, Answer, m.actionid, m.body); }
        else { dropped := dropped + [Drop(m.actionid, stored.identity, FabricGone)]; }
        queue := queue - {m.actionid};
        Release(m.identity, order, now);
      } else {
        dropped := dropped + [Drop(m.actionid, stored.identity, FabricToFabric)];
        queue := queue - {m.actionid};
      }
    }

    method ProcessException(m: S.Msg, order: seq<ActionId>, now: Time)
      requires Valid()
      modifies this, ifaces
      ensures Valid() && St() == S.ProcessException(old(St()), m, order, now)
    {
      if m.actionid !in queue { return; }
      var stored := queue[m.actionid];
      if m.local && stored.local {
        if m.identity in modules {
          SendMessage(stored.identity, Answer, m.actionid, m.body);
          queue := queue - {m.actionid};
          Release(m.identity, order, now);
        }
      } else if stored.local {
        if ToInt(BodyInt(m.body, "exception")) == MODULES_BUSY {
          var c, rc := PlaceCall(stored, now);
          queue := queue[m.actionid := c];
        } else {
          SendMessage(stored.identity, Answer, m.actionid, m.body);
          queue := queue - {m.actionid};
        }
      } else if m.local {
        if stored.identity in fabs { SendMessage(stored.identity, Answer, m.actionid, m.body); }
        else { dropped := dropped + [Drop(m.actionid, stored.identity, FabricGone)]; }
        queue := queue - {m.actionid};
        Release(m.identity, order, now);
      } else {
        dropped := dropped + [Drop(m.actionid, stored.identity, FabricToFabric)];
        queue := queue - {m.actionid};
      }
    }

    method ProcessIfaceList(m: S.Msg)
      requires Valid()
      modifies this`up, this`store, ifaces
      ensures Valid() && St() == S.ProcessIfaceList(old(St()), m)
    {
      var list := GetIfaceList(m.body);
      if list.None? { return; }
      if m.identity !in fabs { up := false; return; }
      var paths, k := list.value, 0;
      while k < |paths| && up
        invariant 0 <= k <= |paths| && Valid() && fabs == old(fabs)
        invariant S.MergeList(old(St()), m.identity, paths) == S.MergeList(St(), m.identity, paths[k..])
      {
        var parsed := ParsePath(paths[k]);
        if parsed.Some? {
          Provide(parsed.value.0, parsed.value.1, parsed.value.2, m.identity, false);
        }
        k := k + 1;
      }
    }

    // known: the frame read back from the process manager was not "no"
    method ProcessIntroduce(m: S.Msg, known: bool, keys: seq<string>)
      requires Valid()
      modifies this, ifaces
      ensures Valid() && St() == S.ProcessIntroduce(old(St()), m, known, keys)
    {
      var name, pid := BodyString(m.body, "name"), GetPid(m.body);
      if name.None? || pid == 0 { return; }
      commands := commands + [CheckPid(pid)];
      if !cfg.debug && !known { return; }
      var versions := GetProvides(m.body);
      if versions.None? || versions.value == map[] { return; }
      ghost var s := St();
      var k := 0;
      while k < |keys| && up
        invariant 0 <= k <= |keys| && Valid()
        invariant S.ProvideAll(s, m.identity, name.value, versions.value, keys)
               == S.ProvideAll(St(), m.identity, name.value, versions.value, keys[k..])
      {
        if keys[k] in versions.value {
          Provide(name.value, keys[k], versions.value[keys[k]], m.identity, true);
        }
        k := k + 1;
      }
      if !up { return; }
      commands := commands + [Register(pid, name.value)];
      if m.identity !in modules {
        modules := modules[m.identity := Module(m.identity, name.value, pid, Idle, false)];
      }
      SendMessage(m.identity, Introduced, m.actionid, Response("ok", m.actionid));
    }

    method ProcessRequest(m: S.Msg)
      requires Valid()
      modifies this`sent, ifaces
      ensures Valid() && St() == S.ProcessRequest(old(St()), m)
    {
      if BodyString(m.body, "command") == Some("IfaceList") && m.identity in fabs {
        var paths := LocalPaths();
        SendMessage(m.identity, IfaceListOut, m.actionid, IfaceListResponse(paths, m.actionid));
      }
    }

    // The names of the interfaces with a local provider
    method LocalPaths() returns (paths: seq<string>)
      requires Valid()
      modifies ifaces
      ensures Valid() && St() == old(St()) && paths == S.LocalPaths(store, ifaces.items)
    {
      paths := [];
      ghost var n := 0;
      ghost var registry := ifaces.items;
      var cur := ifaces.First();
      while cur.Some?
        invariant Valid() && ifaces.items == registry && St() == old(St())
        invariant 0 <= n <= |registry|
        invariant cur.Some? ==> n < |registry| && ifaces.cursor == n && cur.value == registry[n]
        invariant cur.None? ==> n == |registry|
        invariant S.LocalPaths(store, registry) == paths + S.LocalPaths(store, registry[n..])
        decreases |registry| - n
      {
        assert registry[n] in registry;
        var i := store[cur.value];
        var piece := S.LocalPath(i);
        assert S.LocalPaths(store, registry[n..]) == piece + S.LocalPaths(store, registry[n + 1..]) by {
          assert registry[n..][1..] == registry[n + 1..];
        }
        paths := paths + piece;
        cur := ifaces.Next();
        n := n + 1;
      }
    }

    // ---------- timers and the process manager ----------

    method RemoveModule(id: Id)
      requires Valid()
      modifies this`store, this`modules, ifaces
      ensures Valid() && St() == S.RemoveModule(old(St()), id)
    {
      IfaceRemove(id);
      modules := modules - {id};
    }

    method SweepItem(a: ActionId, now: Time)
      requires Valid() && a in queue
      modifies this, ifaces
      ensures Valid() && St() == S.SweepItem(old(St()), a, now)
    {
      var c := queue[a];
      var reason: Option<Reason> := None;
      if S.InExpired(cfg, c, now) { reason := Some(AllBusy); }
      if S.OutExpired(cfg, c, now) { reason := Some(GlobalTimeout); }
      if S.ProcessExpired(cfg, c, now) {
        reason := Some(ProcessTimeout);
        var id := c.routedVia.value;
        if id in modules && !cfg.debug {
          commands := commands + [Restart(modules[id].pid)];
          RemoveModule(id);
        }
      }
      if reason.Some? {
        SendMessage(c.identity, Answer, c.actionid, Raised(c.actionid, reason.value));
        queue := queue - {a};
      }
    }

    method Sweep(order: seq<ActionId>, now: Time)
      requires Valid()
      modifies this, ifaces
      ensures Valid() && St() == S.Sweep(old(St()), order, now)
    {
      var k := 0;
      while k < |order|
        invariant 0 <= k <= |order| && Valid()
        invariant S.Sweep(old(St()), order, now) == S.Sweep(St(), order[k..], now)
      {
        if order[k] in queue { SweepItem(order[k], now); }
        k := k + 1;
      }
    }

    method Poll(order: seq<S.Polled>)
      requires Valid()
      modifies this`fabs, this`store, this`sent, ifaces
      ensures Valid() && St() == S.Poll(old(St()), order)
    {
      var k := 0;
      while k < |order|
        invariant 0 <= k <= |order| && Valid()
        invariant S.Poll(old(St()), order) == S.Poll(St(), order[k..])
      {
        var fab := order[k].fab;
        if fab in fabs {
          if fabs[fab] {
            SendMessage(fab, Ask, order[k].uuid, IfaceListRequest(order[k].uuid));
            fabs := fabs[fab := false];
          } else {
            IfaceRemove(fab);
            fabs := fabs - {fab};
          }
        }
        k := k + 1;
      }
    }

    // zhash_foreach(modules, procman_checkpid): stops at the first module of that process
    method OnProcman(f: S.Frame, order: seq<Id>)
      requires Valid()
      modifies this`store, this`modules, this`commands, ifaces
      ensures Valid() && St() == S.OnProcman(old(St()), f, order)
    {
      var pid := S.FramePid(f);
      if pid == 0 { return; }
      var k := 0;
      while k < |order| && !(order[k] in modules && modules[order[k]].pid == pid)
        invariant 0 <= k <= |order|
        invariant S.FirstWithPid(modules, order, pid) == S.FirstWithPid(modules, order[k..], pid)
      {
        k := k + 1;
      }
      if k < |order| {
        var id := order[k];
        if f.Removed? {
          RemoveModule(id);
        } else if modules[id].state.Idle? {
          modules := modules[id := modules[id].(state := Restarting)];
          commands := commands + [Restart(pid)];
        } else {
          modules := modules[id := modules[id].(needRestart := true)];
        }
      }
    }

    // One turn of the reactor
    method Handle(e: S.Event, now: Time)
      requires Valid() && up
      modifies this, ifaces
      ensures Valid() && St() == S.Step(old(St()), e, now)
    {
      match e {
        case Arrive(_, _, _, _, _, _) => OnMessage(e, now);
        case SweepTimer(order) => Sweep(order, now);
        case PollTimer(order) => Poll(order);
        case Beacon(id, connected) =>
          if id !in fabs && connected { fabs := fabs[id := true]; }
        case FromProcman(f, order) => OnProcman(f, order);
      }
    }

    method OnMessage(e: S.Event, now: Time)
      requires Valid() && e.Arrive?
      modifies this, ifaces
      ensures Valid() && St() == S.OnMessage(old(St()), e, now)
    {
      var parsed := S.Parse(e.local, e.identity, e.body);
      if parsed.None? { return; }
      if !e.local && e.identity in fabs { fabs := fabs[e.identity := true]; }
      var (verb, m) := parsed.value;
      match verb {
        case VRequest => ProcessRequest(m);
        case VResult => ProcessResult(m, e.order, now);
        case VCall => ProcessCall(m, now);
        case VException => ProcessException(m, e.order, now);
        case VIntroduce => ProcessIntroduce(m, e.known, e.keys);
        case _ =>
      }
    }
  }

  // The reactor over a whole run: a broker that has crashed handles nothing more.
  method Serve(cfg: Config, ticks: seq<S.Tick>) returns (b: Broker)
    ensures fresh(b) && b.Valid() && b.St() == S.Run(cfg, ticks)
  {
    b := new Broker(cfg);
    var k := 0;
    while k < |ticks|
      invariant 0 <= k <= |ticks| && fresh(b) && fresh(b.ifaces)
      invariant b.Valid() && b.St() == S.Run(cfg, ticks[..k])
    {
      assert ticks[..k + 1][..k] == ticks[..k];
      if b.up { b.Handle(ticks[k].ev, ticks[k].now); }
      k := k + 1;
    }
    assert ticks[..k] == ticks;
  }

  // ---------- helpers for the walk that deletes ----------

  lemma NoDupAppend(registry: seq<Ref>, r: Ref)
    requires NoDup(registry) && forall q <- registry :: q < r
    ensures NoDup(registry + [r])
  {
    forall i, j | 0 <= i < j < |registry + [r]| ensures (registry + [r])[i] != (registry + [r])[j] {
      assert registry[i] in registry;
    }
  }

  // The interfaces, and those of them still listed
  datatype Purging = Purging(store: seq<Iface>, live: seq<Ref>)

  ghost function PurgeNext(p: Purging, r: Ref, id: Id): (q: Purging)
    ensures |q.store| == |p.store|
  {
    if r >= |p.store| then p
    else
      var i := PurgeIface(p.store[r], id);
      Purging(p.store[r := i], if EmptyIface(i) then p.live else p.live + [r])
  }

  // The store and the surviving list after the loop of iface_remove has visited n interfaces
  ghost function PurgedUpTo(store: seq<Iface>, registry: seq<Ref>, n: nat, id: Id): (r: Purging)
    requires n <= |registry|
    ensures |r.store| == |store|
  {
    if n == 0 then Purging(store, [])
    else PurgeNext(PurgedUpTo(store, registry, n - 1, id), registry[n - 1], id)
  }

  lemma {:induction false} LiveStable(registry: seq<Ref>, store: seq<Iface>, store': seq<Iface>)
    requires forall r <- registry :: At(store', r) == At(store, r)
    ensures Live(registry, store') == Live(registry, store)
  {
    if registry != [] { LiveStable(registry[1..], store, store'); }
  }

  lemma {:induction false} LiveAppend(registry: seq<Ref>, r: Ref, store: seq<Iface>)
    ensures Live(registry + [r], store) == Live(registry, store) + if EmptyIface(At(store, r)) then [] else [r]
  {
    if registry != [] {
      assert (registry + [r])[1..] == registry[1..] + [r];
      LiveAppend(registry[1..], r, store);
    }
  }

  lemma PurgeStoreNext(store: seq<Iface>, done: seq<Ref>, r: Ref, id: Id)
    requires r !in done && r < |store|
    ensures PurgeStore(store, done + [r], id) == PurgeStore(store, done, id)[r := PurgeIface(store[r], id)]
    ensures PurgeStore(store, done, id)[r] == store[r]
  {
  }

  lemma PurgeNextSpec(store: seq<Iface>, done: seq<Ref>, r: Ref, id: Id)
    requires r !in done && r < |store|
    ensures var st, st' := PurgeStore(store, done, id), PurgeStore(store, done + [r], id);
      PurgeNext(Purging(st, Live(done, st)), r, id) == Purging(st', Live(done + [r], st'))
  {
    PurgeStoreNext(store, done, r, id);
    var st, st' := PurgeStore(store, done, id), PurgeStore(store, done + [r], id);
    LiveStable(done, st, st');
    LiveAppend(done, r, st');
  }

  lemma NothingPurged(store: seq<Iface>, registry: seq<Ref>, id: Id)
    ensures PurgedUpTo(store, registry, 0, id) == Purging(store, [])
  {}

  lemma OneMorePurged(store: seq<Iface>, registry: seq<Ref>, n: nat, id: Id)
    requires n < |registry|
    ensures PurgedUpTo(store, registry, n + 1, id) == PurgeNext(PurgedUpTo(store, registry, n, id), registry[n], id)
  {}

  // Purging one interface after the other is purging all of them at once.
  lemma {:induction false} PurgedUpToSpec(store: seq<Iface>, registry: seq<Ref>, n: nat, id: Id)
    requires NoDup(registry) && n <= |registry|
    requires forall k | 0 <= k < |registry| :: registry[k] < |store|
    ensures var st := PurgeStore(store, registry[..n], id);
      PurgedUpTo(store, registry, n, id) == Purging(st, Live(registry[..n], st))
  {
    if n == 0 {
      assert PurgeStore(store, registry[..n], id) == store;
    } else {
      PurgedUpToSpec(store, registry, n - 1, id);
      assert registry[..n] == registry[..n - 1] + [registry[n - 1]];
      PurgeNextSpec(store, registry[..n - 1], registry[n - 1], id);
    }
  }

  lemma PurgedAll(store: seq<Iface>, registry: seq<Ref>, id: Id)
    requires NoDup(registry) && forall r <- registry :: r < |store|
    ensures var st := PurgeStore(store, registry, id);
      && PurgedUpTo(store, registry, |registry|, id) == Purging(st, Live(registry, st))
      && NoDup(Live(registry, st))
      && forall r <- Live(registry, st) :: r < |store|
  {
    assert registry[..|registry|] == registry;
    assert forall k | 0 <= k < |registry| :: registry[k] in registry;
    PurgedUpToSpec(store, registry, |registry|, id);
    LiveSpec(registry, PurgeStore(store, registry, id));
  }

  lemma {:induction false} LiveIsVisited(store: seq<Iface>, registry: seq<Ref>, n: nat, id: Id)
    requires n <= |registry|
    ensures forall r <- PurgedUpTo(store, registry, n, id).live :: r in registry[..n]
  {
    if n > 0 {
      LiveIsVisited(store, registry, n - 1, id);
      assert registry[..n] == registry[..n - 1] + [registry[n - 1]];
    }
  }

  lemma Ahead(store: seq<Iface>, registry: seq<Ref>, n: nat, id: Id)
    requires n < |registry| && NoDup(registry) && registry[n] < |store|
    ensures var live := PurgedUpTo(store, registry, n, id).live;
      && registry[n] !in live
      && live + registry[n..] == live + [registry[n]] + registry[n + 1..]
  {
    LiveIsVisited(store, registry, n, id);
    assert registry[n] !in registry[..n];
  }

  lemma RemoveAt(live: seq<Ref>, r: Ref, rest: seq<Ref>)
    requires r !in live
    ensures var all := live + [r] + rest;
      IndexOf(all, r) == |live| && all[..|live|] + all[|live| + 1..] == live + rest
  {
    var all := live + [r] + rest;
    assert all[|live|] == r;
    forall i | 0 <= i < |live| ensures all[i] != r { assert live[i] in live; }
  }
}
