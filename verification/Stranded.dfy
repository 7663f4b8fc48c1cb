/** Calls that wait for an interface nobody finds any more. A call is bound once, on arrival; when the
    last provider of its interface goes, the interface leaves the registry, and a module that comes in
    its place is listed in a new one. */
module Stranded {
  import opened Wrappers
  import opened Text
  import opened Messages
  import opened Tables
  import opened Steps
  import opened Registry
  import opened Queue
  import opened Draining
  import opened InFlight
  import opened Replies
  import opened Timeouts
  import opened Timing
  import opened Ledger
  import opened Staying

  // ---------- the registry changes at its end, and by leaving things out ----------

  // What check_interface finds it goes on finding while that is listed, and nothing is listed again.
  ghost predicate KeepsFirst(s: State, t: State) {
    && |s.store| <= |t.store|
    && (forall r <- t.registry | r < |s.store| :: r in s.registry)
    && (forall mod, func, ver, r | CheckInterface(s, mod, func, ver) == Some(r) && r in t.registry ::
         CheckInterface(t, mod, func, ver) == Some(r))
  }

  lemma KeepsFirstTwice(s: State, t: State, u: State)
    requires KeepsFirst(s, t) && KeepsFirst(t, u)
    requires forall r <- s.registry :: r < |s.store|
    ensures KeepsFirst(s, u)
  {
    forall mod, func, ver, r | CheckInterface(s, mod, func, ver) == Some(r) && r in u.registry
      ensures CheckInterface(u, mod, func, ver) == Some(r)
    {
      CheckFromSpec(s.store, s.registry, mod, func, ver);
      assert r in s.registry;
      assert r in t.registry;
      assert CheckInterface(t, mod, func, ver) == Some(r);
    }
  }

  lemma InRest(registry: seq<Ref>)
    requires registry != []
    ensures registry[0] in registry && forall r <- registry :: r == registry[0] || r in registry[1..]
    ensures forall r <- registry[1..] :: r in registry
    ensures NoDup(registry) ==> NoDup(registry[1..]) && registry[0] !in registry[1..]
  {
    assert registry == [registry[0]] + registry[1..];
    assert forall k | 0 <= k < |registry[1..]| :: registry[1..][k] == registry[k + 1];
  }

  lemma {:induction false} CheckAppended(store: seq<Iface>, after: seq<Iface>, registry: seq<Ref>, more: seq<Ref>,
                                         mod: string, func: string, ver: U64)
    requires IfacesKept(store, after) && forall r <- registry :: r < |store|
    ensures CheckFrom(after, registry + more, mod, func, ver) ==
      if CheckFrom(store, registry, mod, func, ver).Some? then CheckFrom(store, registry, mod, func, ver)
      else CheckFrom(after, more, mod, func, ver)
  {
    if registry == [] {
      assert registry + more == more;
    } else {
      InRest(registry);
      assert registry[0] < |store| && (registry + more)[1..] == registry[1..] + more;
      CheckAppended(store, after, registry[1..], more, mod, func, ver);
    }
  }

  lemma ProvideKeepsFirst(s: State, mod: string, func: string, ver: U64, id: Id, asLocal: bool)
    requires forall r <- s.registry :: r < |s.store|
    ensures KeepsFirst(s, Provide(s, mod, func, ver, id, asLocal))
  {
    hide CheckFrom;
    var t := Provide(s, mod, func, ver, id, asLocal);
    var more := if t.registry == s.registry then [] else [|s.store|];
    assert t.registry == s.registry + more && IfacesKept(s.store, t.store);
    forall mod', func', ver' | CheckInterface(s, mod', func', ver').Some?
      ensures CheckInterface(t, mod', func', ver') == CheckInterface(s, mod', func', ver')
    {
      CheckAppended(s.store, t.store, s.registry, more, mod', func', ver');
    }
  }

  lemma {:induction false} CheckLive(store: seq<Iface>, after: seq<Iface>, registry: seq<Ref>,
                                     mod: string, func: string, ver: U64, r: Ref)
    requires IfacesKept(store, after) && NoDup(registry) && forall q <- registry :: q < |store|
    requires CheckFrom(store, registry, mod, func, ver) == Some(r) && r in Live(registry, after)
    ensures CheckFrom(after, Live(registry, after), mod, func, ver) == Some(r)
  {
    hide NoDup, EmptyIface;
    var first, rest, live := registry[0], registry[1..], Live(registry[1..], after);
    InRest(registry);
    LiveSpec(rest, after);
    assert first < |store|;
    if Serves(At(store, first), mod, func, ver) {
      assert r == first && r !in live;
    } else {
      CheckFromSpec(store, rest, mod, func, ver);
      assert r in rest && r in live;
      CheckLive(store, after, rest, mod, func, ver, r);
      assert ([first] + live)[1..] == live && [] + live == live;
    }
  }

  lemma RemoveKeepsFirst(s: State, id: Id)
    requires forall r <- s.registry :: r < |s.store|
    requires NoDup(s.registry)
    ensures KeepsFirst(s, IfaceRemove(s, id))
  {
    var t := IfaceRemove(s, id);
    LiveSpec(s.registry, t.store);
    forall mod, func, ver, r | CheckInterface(s, mod, func, ver) == Some(r) && r in t.registry
      ensures CheckInterface(t, mod, func, ver) == Some(r)
    {
      CheckLive(s.store, t.store, s.registry, mod, func, ver, r);
    }
  }

  // ---------- events that place no call ----------

  lemma RegistryInStore(s: State)
    requires RegistryOk(s)
    ensures InStore(s)
  {}

  // Only modules in `comers` have become providers of an interface, or idle.
  ghost predicate FewProviders(s: State, t: State, comers: set<Id>) {
    && (forall r, id | r in t.registry && r < |s.store| && id in At(t.store, r).locals ::
         id in At(s.store, r).locals || id in comers)
    && (forall id | IsIdle(t, id) :: IsIdle(s, id) || id in comers)
  }

  ghost predicate Quiet(s: State, t: State, comers: set<Id>) {
    && t.cfg == s.cfg && KeepsFirst(s, t) && FewProviders(s, t, comers) && InStore(t)
    && forall a <- t.queue :: a in s.queue && t.queue[a] == s.queue[a]
  }

  lemma QuietTwice(s: State, t: State, u: State, comers: set<Id>)
    requires InStore(s) && Quiet(s, t, comers) && Quiet(t, u, comers)
    ensures Quiet(s, u, comers)
  {
    KeepsFirstTwice(s, t, u);
    hide KeepsFirst;
    assert forall r <- u.registry | r < |s.store| :: r in t.registry by { assert KeepsFirst(t, u); }
  }

  lemma SameTables(s: State, t: State, comers: set<Id>)
    requires InStore(s) && t.store == s.store && t.registry == s.registry && t.cfg == s.cfg
    requires forall a <- t.queue :: a in s.queue && t.queue[a] == s.queue[a]
    requires forall id | IsIdle(t, id) :: IsIdle(s, id) || id in comers
    ensures Quiet(s, t, comers)
  {
  }

  lemma ProvideQuiet(s: State, mod: string, func: string, ver: U64, id: Id, asLocal: bool)
    requires InStore(s)
    ensures Quiet(s, Provide(s, mod, func, ver, id, asLocal), if asLocal then {id} else {})
  {
    hide KeepsFirst, CheckFrom;
    ProvideKeepsFirst(s, mod, func, ver, id, asLocal);
  }

  lemma {:induction false} ProvideAllQuiet(s: State, id: Id, name: string, versions: map<string, U64>, keys: seq<string>)
    requires InStore(s)
    ensures Quiet(s, ProvideAll(s, id, name, versions, keys), {id})
    decreases |keys|
  {
    hide Provide, KeepsFirst, FewProviders;
    if keys == [] || !s.up {
      SameTables(s, s, {id});
    } else if keys[0] in versions {
      var t := Provide(s, name, keys[0], versions[keys[0]], id, true);
      ProvideQuiet(s, name, keys[0], versions[keys[0]], id, true);
      ProvideAllQuiet(t, id, name, versions, keys[1..]);
      QuietTwice(s, t, ProvideAll(t, id, name, versions, keys[1..]), {id});
    } else {
      ProvideAllQuiet(s, id, name, versions, keys[1..]);
    }
  }

  lemma {:induction false} MergeListQuiet(s: State, fab: Id, paths: seq<string>)
    requires InStore(s)
    ensures Quiet(s, MergeList(s, fab, paths), {})
    decreases |paths|
  {
    hide Provide, KeepsFirst, FewProviders;
    if paths == [] || !s.up {
      SameTables(s, s, {});
    } else {
      match ParsePath(paths[0]) {
        case Some((mod, func, ver)) =>
          var t := Provide(s, mod, func, ver, fab, false);
          ProvideQuiet(s, mod, func, ver, fab, false);
          MergeListQuiet(t, fab, paths[1..]);
          QuietTwice(s, t, MergeList(t, fab, paths[1..]), {});
        case None => MergeListQuiet(s, fab, paths[1..]);
      }
    }
  }

  lemma IntroduceQuiet(s: State, m: Msg, known: bool, keys: seq<string>)
    requires InStore(s)
    ensures Quiet(s, ProcessIntroduce(s, m, known, keys), {m.identity})
  {
    hide KeepsFirst, FewProviders, ProvideAll;
    var s1, t := AskPid(s, m), ProcessIntroduce(s, m, known, keys);
    SameTables(s, s1, {m.identity});
    match (BodyString(m.body, "name"), GetProvides(m.body)) {
      case (Some(name), Some(versions)) =>
        var s2 := ProvideAll(s1, m.identity, name, versions, keys);
        ProvideAllQuiet(s1, m.identity, name, versions, keys);
        QuietTwice(s, s1, s2, {m.identity});
        SameTables(s2, AddModule(s2, m, name), {m.identity});
        QuietTwice(s, s2, AddModule(s2, m, name), {m.identity});
      case _ =>
    }
  }

  lemma RemoveFewer(s: State, id: Id)
    requires RegistryOk(s)
    ensures FewProviders(s, IfaceRemove(s, id), {}) && InStore(IfaceRemove(s, id))
  {
    var t := IfaceRemove(s, id);
    LiveSpec(s.registry, t.store);
    forall r, x | r in t.registry && r < |s.store| && x in At(t.store, r).locals ensures x in At(s.store, r).locals {
      assert IfaceOk(s.store[r], s.modules.Keys, s.fabs.Keys);
      WithoutSpec(s.store[r].locals, id);
    }
  }

  lemma RemoveQuiet(s: State, id: Id)
    requires RegistryOk(s)
    ensures Quiet(s, IfaceRemove(s, id), {}) && Quiet(s, RemoveModule(s, id), {})
  {
    RemoveKeepsFirst(s, id);
    RemoveFewer(s, id);
    hide KeepsFirst;
    var t := IfaceRemove(s, id);
    assert Quiet(s, t, {});
    SameTables(t, RemoveModule(s, id), {});
    QuietTwice(s, t, RemoveModule(s, id), {});
  }

  lemma SweepItemQuiet(s: State, a: ActionId, now: Time)
    requires RegistryOk(s)
    ensures Quiet(s, SweepItem(s, a, now), {})
  {
    hide KeepsFirst, FewProviders, RemoveModule;
    SameTables(s, s, {});
    if a in s.queue && Expired(s.cfg, s.queue[a], now) {
      var c := s.queue[a];
      var s1 := if ProcessExpired(s.cfg, c, now) then GiveUp(s, c.routedVia.value) else s;
      if s1 != s {
        var id := c.routedVia.value;
        var s0 := Tell(s, Restart(s.modules[id].pid));
        SameTables(s, s0, {});
        RemoveQuiet(s0, id);
        QuietTwice(s, s0, s1, {});
      }
      SameTables(s1, SweepItem(s, a, now), {});
      QuietTwice(s, s1, SweepItem(s, a, now), {});
    }
  }

  lemma {:induction false} SweepQuiet(s: State, order: seq<ActionId>, now: Time)
    requires RegistryOk(s)
    ensures Quiet(s, Sweep(s, order, now), {})
    decreases |order|
  {
    hide KeepsFirst, FewProviders, SweepItem;
    if order == [] {
      SameTables(s, s, {});
    } else {
      var t := SweepItem(s, order[0], now);
      SweepItemQuiet(s, order[0], now);
      SweepItemKeepsRegistry(s, order[0], now);
      SweepQuiet(t, order[1..], now);
      QuietTwice(s, t, Sweep(t, order[1..], now), {});
    }
  }

  lemma PollItemQuiet(s: State, q: Polled)
    requires RegistryOk(s)
    ensures Quiet(s, PollItem(s, q), {})
  {
    hide KeepsFirst, FewProviders, IfaceRemove;
    RemoveQuiet(s, q.fab);
    var t := PollItem(s, q);
    if q.fab in s.fabs && !s.fabs[q.fab] {
      SameTables(IfaceRemove(s, q.fab), t, {});
      QuietTwice(s, IfaceRemove(s, q.fab), t, {});
    } else {
      SameTables(s, t, {});
    }
  }

  lemma {:induction false} PollQuiet(s: State, order: seq<Polled>)
    requires RegistryOk(s)
    ensures Quiet(s, Poll(s, order), {})
    decreases |order|
  {
    hide KeepsFirst, FewProviders, PollItem;
    if order == [] {
      SameTables(s, s, {});
    } else {
      var t := PollItem(s, order[0]);
      PollItemQuiet(s, order[0]);
      PollItemKeepsRegistry(s, order[0]);
      PollQuiet(t, order[1..]);
      QuietTwice(s, t, Poll(t, order[1..]), {});
    }
  }

  lemma ProcmanQuiet(s: State, f: Frame, order: seq<Id>)
    requires RegistryOk(s)
    ensures Quiet(s, OnProcman(s, f, order), {})
  {
    hide KeepsFirst, FewProviders, RemoveModule, RegistryOk;
    RegistryInStore(s);
    SameTables(s, s, {});
    var hit := FirstWithPid(s.modules, order, FramePid(f));
    if hit.Some? {
      RemoveQuiet(s, hit.value);
      SameTables(s, RestartModule(s, hit.value), {});
    }
  }

  // ---------- placing calls ----------

  predicate Unlisted(s: State, c: Call) { c.iface.Some? && c.iface.value !in s.registry }

  // A waiting call whose interface is not listed any more, and that has no fabric to go to
  predicate IsStranded(s: State, c: Call) { c.routedVia.None? && c.globals == [] && Unlisted(s, c) }

  ghost predicate SameRequest(c: Call, d: Call) {
    d.mod == c.mod && d.func == c.func && d.ver == c.ver && d.iface == c.iface && d.globals == c.globals
  }

  // The call is as it was, or it has been placed and was not stranded.
  ghost predicate Stays(s: State, c: Call, d: Call) {
    d == c || (SameRequest(c, d) && d.routedVia.Some? && !IsStranded(s, c))
  }

  // What placing queued calls changes
  ghost predicate Passed(s: State, t: State) {
    && t.cfg == s.cfg && t.store == s.store && t.registry == s.registry
    && Busier(s.modules, t.modules)
    && t.queue.Keys == s.queue.Keys && forall a <- s.queue :: Stays(s, s.queue[a], t.queue[a])
  }

  lemma StrandedIsNotPlaced(s: State, c: Call, now: Time)
    requires RegistryOk(s) && IsStranded(s, c) && c.iface.value < |s.store|
    ensures PlaceCall(s, c, now) == Placed(s, c, 0)
  {
    assert EmptyIface(s.store[c.iface.value]);
  }

  lemma OutcomeStays(s: State, c: Call, p: Placed, now: Time)
    requires Outcome(s, c, p, now) && c.routedVia.None? && c.iface.Some? && !IsStranded(s, c)
    ensures Stays(s, c, p.call)
  {
    assert Bind(s, c) == c;
    if id :| Handed(s, c, p, id, now) {
    } else if id :| Relayed(s, c, p, id, now) {
    }
  }

  lemma PlaceQueuedPasses(s: State, a: ActionId, now: Time)
    requires RegistryOk(s) && CallsOk(s) && a in s.queue
    ensures Passed(s, PlaceQueued(s, a, now).st)
  {
    var c := s.queue[a];
    assert CallOk(c, s.store);
    PlaceCallWaits(s, c, now);
    PlaceCallFrame(s, c, now);
    PlaceCallOutcome(s, c, now);
    hide PlaceCall, RegistryOk, CallsOk, Outcome;
    if IsStranded(s, c) { StrandedIsNotPlaced(s, c, now); }
    else if c.routedVia.None? { OutcomeStays(s, c, PlaceCall(s, c, now), now); }
  }

  lemma PassedTwice(s: State, t: State, u: State)
    requires Passed(s, t) && Passed(t, u)
    ensures Passed(s, u)
  {
  }

  lemma {:induction false} DrainPasses(s: State, order: seq<ActionId>, now: Time)
    requires RegistryOk(s) && CallsOk(s)
    ensures Passed(s, Drain(s, order, now))
    decreases |order|
  {
    hide RegistryOk, CallsOk, PlaceQueued, Stays;
    if order != [] && s.up {
      if order[0] in s.queue {
        var t := PlaceQueued(s, order[0], now).st;
        PlaceQueuedPasses(s, order[0], now);
        PlaceQueuedKeeps(s, order[0], now);
        DrainPasses(t, order[1..], now);
        PassedTwice(s, t, Drain(t, order[1..], now));
      } else {
        DrainPasses(s, order[1..], now);
      }
    } else {
      assert forall a <- s.queue :: Stays(s, s.queue[a], s.queue[a]) by { NothingPassed(s); }
    }
  }

  lemma NothingPassed(s: State)
    ensures Passed(s, s)
  {}

  // ---------- every event ----------

  // A call that joins the queue is bound to the interface that serves it, and with the intended walk
  // waits only if no local provider of it is idle.
  ghost predicate Arrives(t: State, d: Call) {
    && d.iface.Some? && Offer(t, d) == d.iface
    && d.globals == (if d.local then At(t.store, d.iface.value).globals else [])
    && (t.cfg.walk.Intended? && d.routedVia.None? ==> !HasIdle(t, d.iface.value))
  }

  ghost predicate Advances(s: State, t: State, comers: set<Id>) {
    && t.cfg == s.cfg && KeepsFirst(s, t) && FewProviders(s, t, comers) && InStore(t)
    && forall a <- t.queue :: if a in s.queue then Stays(s, s.queue[a], t.queue[a]) else Arrives(t, t.queue[a])
  }

  lemma QuietAdvances(s: State, t: State, comers: set<Id>)
    requires Quiet(s, t, comers)
    ensures Advances(s, t, comers)
  {}

  lemma PassedAdvances(s: State, t: State, u: State, comers: set<Id>)
    requires Quiet(s, t, comers) && t.store == s.store && t.registry == s.registry && Passed(t, u)
    ensures Advances(s, u, comers)
  {
    forall a <- u.queue ensures a in s.queue && Stays(s, s.queue[a], u.queue[a]) {
      assert Stays(t, t.queue[a], u.queue[a]);
    }
    assert forall id :: IsIdle(u, id) ==> IsIdle(t, id);
  }

  lemma LocalReplyAdvances(s: State, c: Call, m: Msg, order: seq<ActionId>, now: Time)
    requires RegistryOk(s) && CallsOk(s)
    ensures Advances(s, LocalReply(s, c, m, order, now), if m.identity in s.modules && !s.modules[m.identity].needRestart then {m.identity} else {})
  {
    RegistryInStore(s);
    FinishKeeps(s, c, m);
    hide RegistryOk, CallsOk, KeepsFirst, FewProviders, Passed;
    var s1, t := Finish(s, c, m), LocalReply(s, c, m, order, now);
    assert s1.store == s.store && s1.registry == s.registry;
    if m.identity in s.modules && !s.modules[m.identity].needRestart {
      var s2 := SetState(s1, m.identity, Idle);
      SameTables(s, s2, {m.identity});
      IdleKeeps(s1, m.identity);
      DrainPasses(s2, order, now);
      PassedAdvances(s, s2, t, {m.identity});
    } else {
      SameTables(s, t, {});
      QuietAdvances(s, t, {});
    }
  }

  lemma FabricReplyAdvances(s: State, c: Call, m: Msg)
    requires InStore(s)
    ensures Advances(s, FabricReply(s, c, m), {})
  {
    hide KeepsFirst, FewProviders;
    SameTables(s, FabricReply(s, c, m), {});
    QuietAdvances(s, FabricReply(s, c, m), {});
  }

  lemma PlaceQueuedAdvances(s: State, a: ActionId, now: Time)
    requires RegistryOk(s) && CallsOk(s) && a in s.queue
    ensures Advances(s, PlaceQueued(s, a, now).st, {})
  {
    RegistryInStore(s);
    PlaceQueuedPasses(s, a, now);
    hide RegistryOk, CallsOk, KeepsFirst, FewProviders, Passed, PlaceQueued;
    SameTables(s, s, {});
    PassedAdvances(s, s, PlaceQueued(s, a, now).st, {});
  }

  // A call is bound on arrival, and waits only if nothing can be done for it.
  lemma NewCallArrives(s: State, c: Call, now: Time)
    requires RegistryOk(s) && c.iface.None? && c.routedVia.None? && c.globals == []
    ensures var p := PlaceCall(s, c, now);
      && Busier(s.modules, p.st.modules)
      && (p.st.up && p.rc != -1 ==> Arrives(p.st, p.call))
  {
    var b := Bind(s, c);
    PlaceCallFrame(s, c, now);
    PlaceCallOutcome(s, c, now);
    CheckFromSpec(s.store, s.registry, c.mod, c.func, c.ver);
    if b.iface.Some? {
      PlaceCallWaits(s, b, now);
      assert PlaceCall(s, c, now) == PlaceCall(s, b, now);
    }
  }

  lemma SameRegistry(s: State, t: State)
    requires InStore(s) && t.store == s.store && t.registry == s.registry && Busier(s.modules, t.modules)
    ensures KeepsFirst(s, t) && FewProviders(s, t, {}) && InStore(t)
  {}

  lemma AdmitAdvances(s: State, m: Msg, p: Placed)
    requires InStore(s) && p.st == s.(up := p.st.up, modules := p.st.modules, sent := p.st.sent)
    requires Busier(s.modules, p.st.modules) && (p.st.up && p.rc != -1 ==> Arrives(p.st, p.call))
    requires p.call.actionid == m.actionid
    ensures Advances(s, Admit(m, p), {})
  {
    var t := Admit(m, p);
    SameRegistry(s, t);
    hide KeepsFirst, FewProviders, Stays, Offer;
    assert t.queue != s.queue ==> Arrives(t, p.call) by {
      if t.queue != s.queue { SameArrival(p.st, t, p.call); }
    }
    forall a <- s.queue ensures a in t.queue && Stays(s, s.queue[a], t.queue[a]) {
      assert t.queue[a] == s.queue[a];
      ItselfStays(s, t.queue[a]);
    }
  }

  lemma SameArrival(s: State, t: State, d: Call)
    requires Arrives(s, d) && t.store == s.store && t.registry == s.registry && t.modules == s.modules && t.cfg == s.cfg
    ensures Arrives(t, d)
  {}

  lemma ItselfStays(s: State, c: Call)
    ensures Stays(s, c, c)
  {}

  lemma CallAdvances(s: State, m: Msg, now: Time)
    requires RegistryOk(s)
    ensures Advances(s, ProcessCall(s, m, now), {})
  {
    RegistryInStore(s);
    match CallOf(m, now) {
      case None =>
        SameTables(s, Refuse(s, m, WrongCall), {});
        QuietAdvances(s, Refuse(s, m, WrongCall), {});
      case Some(c) =>
        PlaceCallFrame(s, c, now);
        NewCallArrives(s, c, now);
        PlaceSends(s, c, now);
        hide RegistryOk, PlaceCall, Advances, Admit;
        AdmitAdvances(s, m, PlaceCall(s, c, now));
    }
  }

  // The answer of a module that goes back to work, and so starts a pass over the queue
  predicate StartsPass(s: State, verb: Verb, m: Msg) {
    && (verb.VResult? || verb.VException?) && m.local && m.actionid in s.queue
    && m.identity in s.modules && !s.modules[m.identity].needRestart
  }

  function Comers(s: State, verb: Verb, m: Msg): set<Id> {
    if verb.VIntroduce? || StartsPass(s, verb, m) then {m.identity} else {}
  }

  lemma IfaceListAdvances(s: State, m: Msg)
    requires InStore(s)
    ensures Advances(s, ProcessIfaceList(s, m), {})
  {
    hide KeepsFirst, FewProviders, MergeList;
    SameTables(s, s, {});
    SameTables(s, Crash(s), {});
    match GetIfaceList(m.body) {
      case None =>
      case Some(paths) => MergeListQuiet(s, m.identity, paths);
    }
    QuietAdvances(s, ProcessIfaceList(s, m), {});
  }

  lemma SameTablesAdvance(s: State)
    requires InStore(s)
    ensures Advances(s, s, {})
  {
    hide KeepsFirst, FewProviders;
    SameTables(s, s, {});
    QuietAdvances(s, s, {});
  }

  lemma ReplyAdvances(s: State, verb: Verb, m: Msg, e: Event, now: Time)
    requires RegistryOk(s) && CallsOk(s) && e.Arrive? && (verb.VResult? || verb.VException?) && m.actionid in s.queue
    ensures Advances(s, ProcessCommand(s, verb, m, e, now), Comers(s, verb, m))
  {
    hide RegistryOk, CallsOk, Advances, Quiet, InStore, LocalReply, FabricReply, PlaceQueued, BodyInt;
    RegistryInStore(s);
    LocalReplyAdvances(s, s.queue[m.actionid], m, e.order, now);
    FabricReplyAdvances(s, s.queue[m.actionid], m);
    PlaceQueuedAdvances(s, m.actionid, now);
    SameTablesAdvance(s);
  }

  lemma CommandAdvances(s: State, verb: Verb, m: Msg, e: Event, now: Time)
    requires RegistryOk(s) && CallsOk(s) && e.Arrive?
    ensures Advances(s, ProcessCommand(s, verb, m, e, now), Comers(s, verb, m))
  {
    hide RegistryOk, CallsOk, Advances, Quiet, InStore, ProcessResult, ProcessException, ProcessCall, ProcessIntroduce, ProcessIfaceList;
    RegistryInStore(s);
    SameTablesAdvance(s);
    match verb {
      case VResult =>
        if m.actionid in s.queue { ReplyAdvances(s, verb, m, e, now); } else { ListAdvances(s, m, e, now); }
      case VException =>
        if m.actionid in s.queue { ReplyAdvances(s, verb, m, e, now); } else { NoReply(s, m, e, now); }
      case VCall => CallAdvances(s, m, now);
      case VIntroduce =>
        IntroduceQuiet(s, m, e.known, e.keys);
        QuietAdvances(s, ProcessIntroduce(s, m, e.known, e.keys), {m.identity});
      case VRequest =>
        SameTables(s, ProcessRequest(s, m), {});
        QuietAdvances(s, ProcessRequest(s, m), {});
      case _ =>
    }
  }

  lemma ListAdvances(s: State, m: Msg, e: Event, now: Time)
    requires InStore(s) && m.actionid !in s.queue && e.Arrive?
    ensures Advances(s, ProcessResult(s, m, e.order, now), {})
  {
    hide Advances, ProcessIfaceList;
    IfaceListAdvances(s, m);
  }

  lemma NoReply(s: State, m: Msg, e: Event, now: Time)
    requires m.actionid !in s.queue && e.Arrive?
    ensures ProcessException(s, m, e.order, now) == s
  {}

  // Who may have become a provider, or idle, with this event
  function Coming(s: State, e: Event): set<Id> {
    if !e.Arrive? then {}
    else
      match Parse(e.local, e.identity, e.body)
      case None => {}
      case Some((verb, m)) => Comers(s, verb, m)
  }

  lemma StepAdvances(s: State, e: Event, now: Time)
    requires RegistryOk(s) && CallsOk(s) && s.up
    ensures Advances(s, Step(s, e, now), Coming(s, e))
  {
    hide RegistryOk, CallsOk, KeepsFirst, FewProviders, ProcessCommand, Sweep, Poll, OnProcman, Advances, Comers;
    RegistryInStore(s);
    SameTablesAdvance(s);
    match e {
      case Arrive(local, identity, body, _, _, _) =>
        match Parse(local, identity, body) {
          case None =>
          case Some((verb, m)) =>
            var s1 := if local then s else MarkAlive(s, identity);
            AliveOk(s, identity);
            CommandAdvances(s1, verb, m, e, now);
            SameComers(s, identity, verb, m);
            if !local { AliveAdvances(s, identity, ProcessCommand(s1, verb, m, e, now), Comers(s, verb, m)); }
        }
      case SweepTimer(order) =>
        SweepQuiet(s, order, now);
        QuietAdvances(s, Sweep(s, order, now), {});
      case PollTimer(order) =>
        PollQuiet(s, order);
        QuietAdvances(s, Poll(s, order), {});
      case Beacon(id, connected) =>
        SameTables(s, OnBeacon(s, id, connected), {});
        QuietAdvances(s, OnBeacon(s, id, connected), {});
      case FromProcman(f, order) =>
        ProcmanQuiet(s, f, order);
        QuietAdvances(s, OnProcman(s, f, order), {});
    }
  }

  lemma AliveOk(s: State, id: Id)
    requires RegistryOk(s) && CallsOk(s)
    ensures RegistryOk(MarkAlive(s, id)) && CallsOk(MarkAlive(s, id))
  {
    assert MarkAlive(s, id).fabs.Keys == s.fabs.Keys;
  }

  lemma SameComers(s: State, id: Id, verb: Verb, m: Msg)
    ensures Comers(MarkAlive(s, id), verb, m) == Comers(s, verb, m)
  {}

  lemma AliveAdvances(s: State, id: Id, t: State, comers: set<Id>)
    requires Advances(MarkAlive(s, id), t, comers)
    ensures Advances(s, t, comers)
  {}

  // ---------- which calls a pass leaves behind ----------

  // A call's interface is, as long as it is listed, the one that serves the call.
  ghost predicate FirstFits(s: State) {
    forall a <- s.queue | s.queue[a].iface.Some? && s.queue[a].iface.value in s.registry ::
      Offer(s, s.queue[a]) == s.queue[a].iface
  }

  lemma AdvanceFits(s: State, t: State, comers: set<Id>)
    requires CallsOk(s) && FirstFits(s) && Advances(s, t, comers)
    ensures FirstFits(t)
  {
    hide FewProviders, NeverRelayed;
    forall a <- t.queue | t.queue[a].iface.Some? && t.queue[a].iface.value in t.registry
      ensures Offer(t, t.queue[a]) == t.queue[a].iface
    {
      if a in s.queue {
        assert SameRequest(s.queue[a], t.queue[a]) && CallOk(s.queue[a], s.store);
        assert Offer(s, s.queue[a]) == s.queue[a].iface;
      }
    }
  }

  // Over any run: no interface that serves a waiting call better, or earlier, ever appears while its own is listed.
  lemma {:induction false} RunFits(cfg: Config, ticks: seq<Tick>)
    ensures Run(cfg, ticks).up ==> FirstFits(Run(cfg, ticks))
  {
    if ticks != [] {
      var before, last := ticks[..|ticks| - 1], ticks[|ticks| - 1];
      RunFits(cfg, before);
      hide Advances, FirstFits;
      if Run(cfg, before).up {
        RunKeepsCalls(cfg, before);
        StepAdvances(Run(cfg, before), last.ev, last.now);
        AdvanceFits(Run(cfg, before), Run(cfg, ticks), Coming(Run(cfg, before), last.ev));
      } else {
        DownStaysDown(Run(cfg, before), last);
      }
    }
  }

  // With the intended walk, of the calls that an idle module would serve the pass leaves exactly those
  // whose own interface is not listed any more - and that have no fabric left to go to.
  lemma OnlyStrandedAreLeft(s: State, order: seq<ActionId>, now: Time)
    requires RegistryOk(s) && CallsOk(s) && FirstFits(s) && s.up && s.cfg.walk.Intended?
    requires forall a <- s.queue :: a in order
    ensures var t := Drain(s, order, now);
      && t.up && t.queue.Keys == s.queue.Keys
      && forall a <- t.queue | Servable(t, t.queue[a]) :: t.queue[a].routedVia.None? <==> IsStranded(s, s.queue[a])
  {
    var t := Drain(s, order, now);
    NoIdleProviderIsLeft(s, order, now);
    DrainIsComplete(s, order, {}, now);
    DrainPasses(s, order, now);
    DrainKeeps(s, order, now);
    hide Drain, Busier;
    forall a <- t.queue | Servable(t, t.queue[a]) ensures t.queue[a].routedVia.None? <==> IsStranded(s, s.queue[a]) {
      assert Stays(s, s.queue[a], t.queue[a]);
      if t.queue[a].routedVia.None? {
        var c := s.queue[a];
        assert t.queue[a] == c && CallOk(c, s.store) && Waits(t, c);
        assert c.iface.value in s.registry ==> Offer(t, c) == c.iface;
        assert EmptyIface(s.store[c.iface.value]);
      }
    }
  }

  // ---------- a stranded call waits for the sweep ----------

  ghost predicate StillStranded(s: State, a: ActionId, c: Call) { a in s.queue && s.queue[a] == c && IsStranded(s, c) }

  // The event leaves the call stranded, or is a sweep that tells its caller that all modules are busy.
  ghost predicate ToldBySweep(s: State, t: State, e: Event, a: ActionId, c: Call) {
    StillStranded(s, a, c) && e.SweepTimer? && a !in t.queue && IsTold(t.sent, c.identity, a, AllBusy)
  }

  lemma StrandedAdvances(s: State, t: State, comers: set<Id>, a: ActionId)
    requires a in s.queue && a in t.queue && IsStranded(s, s.queue[a]) && s.queue[a].iface.value < |s.store|
    requires Advances(s, t, comers)
    ensures StillStranded(t, a, s.queue[a])
  {
    assert Stays(s, s.queue[a], t.queue[a]) && KeepsFirst(s, t);
  }

  lemma {:induction false} SweepKeepsOthers(s: State, order: seq<ActionId>, now: Time, a: ActionId)
    requires a in s.queue && a !in order
    ensures a in Sweep(s, order, now).queue
    decreases |order|
  {
    if order != [] {
      SweepItemFrame(s, order[0], now);
      SweepKeepsOthers(SweepItem(s, order[0], now), order[1..], now, a);
    }
  }

  lemma SweepTells(s: State, order: seq<ActionId>, now: Time, a: ActionId)
    requires a in s.queue && a !in Sweep(s, order, now).queue
    requires s.queue[a].actionid == a && s.queue[a].procTs == 0 && s.queue[a].outTs == 0
    ensures IsTold(Sweep(s, order, now).sent, s.queue[a].identity, a, AllBusy)
  {
    hide Sweep;
    if a !in order { SweepKeepsOthers(s, order, now, a); }
    if !Expired(s.cfg, s.queue[a], now) { SweepKeepsFresh(s, order, now, a); }
    SweepAnswers(s, order, now, a);
  }

  // In a fair run only sweeps take away a call that was handed to nobody.
  lemma UnroutedIsKept(s: State, verb: Verb, m: Msg, e: Event, now: Time, a: ActionId)
    requires RegistryOk(s) && e.Arrive? && FairMessage(s, verb, m)
    requires a in s.queue && s.queue[a].routedVia.None?
    ensures a in ProcessCommand(s, verb, m, e, now).queue
  {
    match verb {
      case VResult => if m.actionid !in s.queue { IfaceListKeepsRegistry(s, m); } else { RepliesTakeTheirOwn(s, m, e.order, now); }
      case VException => if m.actionid in s.queue { RepliesTakeTheirOwn(s, m, e.order, now); }
      case VCall =>
        var c := CallOf(m, now);
        if c.Some? { PlaceCallFrame(s, c.value, now); }
      case VIntroduce => IntroduceKeepsRegistry(s, m, e.known, e.keys);
      case _ =>
    }
  }

  lemma RepliesTakeTheirOwn(s: State, m: Msg, order: seq<ActionId>, now: Time)
    requires m.actionid in s.queue
    ensures s.queue.Keys - {m.actionid} <= ProcessResult(s, m, order, now).queue.Keys
    ensures s.queue.Keys - {m.actionid} <= ProcessException(s, m, order, now).queue.Keys
  {
    hide LocalReply, PlaceCall;
    LocalReplyFrame(s, s.queue[m.actionid], m, order, now);
    PlaceCallFrame(s, s.queue[m.actionid], now);
  }

  lemma StrandedIsTold(s: State, e: Event, now: Time, a: ActionId)
    requires RegistryOk(s) && CallsOk(s) && s.up && Fair(s, e) && a in s.queue && IsStranded(s, s.queue[a])
    requires a !in Step(s, e, now).queue
    ensures e.SweepTimer? && IsTold(Step(s, e, now).sent, s.queue[a].identity, a, AllBusy)
  {
    hide PlaceCall, Bound, RegistryOk, ProcessCommand, Sweep, IsTold, NeverRelayed;
    assert CallOk(s.queue[a], s.store);
    match e {
      case Arrive(local, identity, body, _, _, _) =>
        match Parse(local, identity, body) {
          case None =>
          case Some((verb, m)) =>
            var s1 := if local then s else MarkAlive(s, identity);
            AliveOk(s, identity);
            UnroutedIsKept(s1, verb, m, e, now, a);
        }
      case SweepTimer(order) => SweepTells(s, order, now, a);
      case PollTimer(order) => PollTouchesNoCall(s, order);
      case Beacon(id, connected) =>
      case FromProcman(f, order) =>
    }
  }

  lemma StrandedStays(s: State, e: Event, now: Time, a: ActionId)
    requires RegistryOk(s) && CallsOk(s) && s.up && Fair(s, e) && a in s.queue && IsStranded(s, s.queue[a])
    requires Step(s, e, now).up
    ensures var t := Step(s, e, now);
      StillStranded(t, a, s.queue[a]) || ToldBySweep(s, t, e, a, s.queue[a])
  {
    var t, c := Step(s, e, now), s.queue[a];
    assert CallOk(c, s.store);
    StepAdvances(s, e, now);
    if a in t.queue {
      StrandedAdvances(s, t, Coming(s, e), a);
    } else {
      StrandedIsTold(s, e, now, a);
    }
  }

  ghost predicate ToldAt(cfg: Config, ticks: seq<Tick>, k: int, a: ActionId, c: Call) {
    0 <= k < |ticks| && ToldBySweep(Run(cfg, ticks[..k]), Run(cfg, ticks[..k + 1]), ticks[k].ev, a, c)
  }

  // A stranded call is never placed: it stays as it is, event by event, until a sweep tells its caller that
  // all modules are busy - however many modules that serve it have come in the meantime.
  lemma {:induction false} StrandedUntilSwept(cfg: Config, ticks: seq<Tick>, n: nat, a: ActionId)
    requires Run(cfg, ticks).up && FairRun(cfg, ticks) && n <= |ticks|
    requires a in Run(cfg, ticks[..n]).queue && IsStranded(Run(cfg, ticks[..n]), Run(cfg, ticks[..n]).queue[a])
    ensures var c := Run(cfg, ticks[..n]).queue[a];
      StillStranded(Run(cfg, ticks), a, c) || exists k | n <= k < |ticks| :: ToldAt(cfg, ticks, k, a, c)
  {
    hide Run, FairRun, IsStranded, ToldAt;
    if n == |ticks| {
      assert ticks[..n] == ticks;
    } else {
      var before := ticks[..|ticks| - 1];
      assert before[..n] == ticks[..n];
      OneBefore(cfg, ticks);
      StrandedUntilSwept(cfg, before, n, a);
      var c := Run(cfg, ticks[..n]).queue[a];
      if StillStranded(Run(cfg, before), a, c) {
        StrandedOneMore(cfg, ticks, a);
      } else {
        var k :| n <= k < |before| && ToldAt(cfg, before, k, a, c);
        ToldLater(cfg, ticks, k, a, c);
      }
    }
  }

  lemma OneBefore(cfg: Config, ticks: seq<Tick>)
    requires Run(cfg, ticks).up && FairRun(cfg, ticks) && ticks != []
    ensures Run(cfg, ticks[..|ticks| - 1]).up && FairRun(cfg, ticks[..|ticks| - 1])
  {
    StayedUp(cfg, ticks);
  }

  lemma ToldLater(cfg: Config, ticks: seq<Tick>, k: int, a: ActionId, c: Call)
    requires ticks != [] && ToldAt(cfg, ticks[..|ticks| - 1], k, a, c)
    ensures ToldAt(cfg, ticks, k, a, c)
  {
    hide Run, ToldBySweep;
    var before := ticks[..|ticks| - 1];
    assert before[..k] == ticks[..k] && before[..k + 1] == ticks[..k + 1] && before[k] == ticks[k];
  }

  lemma StrandedOneMore(cfg: Config, ticks: seq<Tick>, a: ActionId)
    requires Run(cfg, ticks).up && FairRun(cfg, ticks) && ticks != []
    requires var s := Run(cfg, ticks[..|ticks| - 1]); a in s.queue && IsStranded(s, s.queue[a])
    ensures var c := Run(cfg, ticks[..|ticks| - 1]).queue[a];
      StillStranded(Run(cfg, ticks), a, c) || ToldAt(cfg, ticks, |ticks| - 1, a, c)
  {
    hide Step, RegistryOk, CallsOk, Fair, IsStranded, StillStranded, ToldBySweep;
    var before, last := ticks[..|ticks| - 1], ticks[|ticks| - 1];
    StayedUp(cfg, ticks);
    RunKeepsCalls(cfg, before);
    StrandedStays(Run(cfg, before), last.ev, last.now, a);
    assert ticks[..|before| + 1] == ticks;
  }

  // So with timely sweeps it is told so when in_timeout and one sweep period are over.
  lemma StrandedIsToldBusy(cfg: Config, ticks: seq<Tick>, start: Time, period: nat, n: nat, a: ActionId)
    requires Guarded(cfg, ticks) && FairRun(cfg, ticks) && Timely(cfg, ticks, start, period) && n <= |ticks|
    requires a in Run(cfg, ticks[..n]).queue && IsStranded(Run(cfg, ticks[..n]), Run(cfg, ticks[..n]).queue[a])
    requires Now(ticks, start) - Run(cfg, ticks[..n]).queue[a].inTs > InLimit(cfg) + period
    ensures exists k | n <= k < |ticks| :: ToldAt(cfg, ticks, k, a, Run(cfg, ticks[..n]).queue[a])
  {
    RunStaysUp(cfg, ticks);
    hide Run, FairRun, Guarded, Timely, IsStranded, ToldAt;
    StrandedUntilSwept(cfg, ticks, n, a);
    var c := Run(cfg, ticks[..n]).queue[a];
    if StillStranded(Run(cfg, ticks), a, c) { StrandedIsYoung(cfg, ticks, start, period, a); }
  }

  lemma StrandedIsYoung(cfg: Config, ticks: seq<Tick>, start: Time, period: nat, a: ActionId)
    requires Run(cfg, ticks).up && Timely(cfg, ticks, start, period)
    requires a in Run(cfg, ticks).queue && IsStranded(Run(cfg, ticks), Run(cfg, ticks).queue[a])
    ensures Now(ticks, start) - Run(cfg, ticks).queue[a].inTs <= InLimit(cfg) + period
  {
    var s := Run(cfg, ticks);
    RunOnTime(cfg, ticks, start, period);
    RunKeepsCalls(cfg, ticks);
    RunConfig(cfg, ticks);
    assert CallOk(s.queue[a], s.store) && CallOnTime(s.cfg, s.queue[a], Now(ticks, start), LastSweep(ticks, start), period);
  }

  // ---------- who is idle while a call waits ----------

  // A pass visits every queued call.
  ghost predicate PassesVisitAll(s: State, e: Event) {
    e.Arrive? ==>
      match Parse(e.local, e.identity, e.body)
      case None => true
      case Some((verb, m)) => StartsPass(s, verb, m) ==> forall a <- s.queue :: a in e.order
  }

  ghost predicate Visited(cfg: Config, ticks: seq<Tick>) {
    ticks == [] ||
    var before := ticks[..|ticks| - 1];
    Visited(cfg, before) && PassesVisitAll(Run(cfg, before), ticks[|ticks| - 1].ev)
  }

  predicate StartsPassNow(s: State, e: Event) {
    e.Arrive? &&
    match Parse(e.local, e.identity, e.body)
    case None => false
    case Some((verb, m)) => StartsPass(s, verb, m)
  }

  // The modules that have introduced themselves since the last pass
  function Introduced(cfg: Config, ticks: seq<Tick>): set<Id> {
    if ticks == [] then {}
    else
      var before, last := ticks[..|ticks| - 1], ticks[|ticks| - 1];
      if StartsPassNow(Run(cfg, before), last.ev) then {}
      else Introduced(cfg, before) + Coming(Run(cfg, before), last.ev)
  }

  // While a call waits, the idle providers of its interface, if that is listed, are all among these.
  ghost predicate WaitsOnlyFor(s: State, comers: set<Id>) {
    forall a <- s.queue | s.queue[a].routedVia.None? && s.queue[a].iface.Some? && s.queue[a].iface.value in s.registry ::
      forall id <- At(s.store, s.queue[a].iface.value).locals | IsIdle(s, id) :: id in comers
  }

  lemma AdvanceWaits(s: State, t: State, comers: set<Id>, more: set<Id>)
    requires CallsOk(s) && s.cfg.walk.Intended? && WaitsOnlyFor(s, comers) && Advances(s, t, more)
    ensures WaitsOnlyFor(t, comers + more)
  {
    hide NeverRelayed;
    forall a <- t.queue | t.queue[a].routedVia.None? && t.queue[a].iface.Some? && t.queue[a].iface.value in t.registry
      ensures forall id <- At(t.store, t.queue[a].iface.value).locals | IsIdle(t, id) :: id in comers + more
    {
      if a in s.queue {
        assert Stays(s, s.queue[a], t.queue[a]) && CallOk(s.queue[a], s.store);
        assert KeepsFirst(s, t);
      } else {
        assert Arrives(t, t.queue[a]);
      }
    }
  }

  lemma PassSettles(s: State, verb: Verb, m: Msg, e: Event, now: Time)
    requires RegistryOk(s) && CallsOk(s) && s.up && s.cfg.walk.Intended?
    requires e.Arrive? && StartsPass(s, verb, m) && forall a <- s.queue :: a in e.order
    ensures WaitsOnlyFor(ProcessCommand(s, verb, m, e, now), {})
  {
    var c, s1 := s.queue[m.actionid], Finish(s, s.queue[m.actionid], m);
    var s2 := SetState(s1, m.identity, Idle);
    FinishKeeps(s, c, m);
    IdleKeeps(s1, m.identity);
    NoIdleProviderIsLeft(s2, e.order, now);
    assert ProcessCommand(s, verb, m, e, now) == Drain(s2, e.order, now);
    hide Drain, RegistryOk, CallsOk, ProcessCommand;
  }

  lemma {:induction false} RunWaits(cfg: Config, ticks: seq<Tick>)
    requires Run(cfg, ticks).up && cfg.walk.Intended? && Visited(cfg, ticks)
    ensures WaitsOnlyFor(Run(cfg, ticks), Introduced(cfg, ticks))
  {
    hide RegistryOk, CallsOk, Advances, Step, Coming, WaitsOnlyFor, PassesVisitAll, StartsPassNow;
    if ticks == [] {
      NobodyWaits(cfg);
    } else {
      var before, last := ticks[..|ticks| - 1], ticks[|ticks| - 1];
      var s := Run(cfg, before);
      StayedUp(cfg, ticks);
      RunWaits(cfg, before);
      RunKeepsCalls(cfg, before);
      RunConfig(cfg, before);
      if StartsPassNow(s, last.ev) {
        EventSettles(s, last.ev, last.now);
      } else {
        StepAdvances(s, last.ev, last.now);
        AdvanceWaits(s, Run(cfg, ticks), Introduced(cfg, before), Coming(s, last.ev));
      }
    }
  }

  lemma NobodyWaits(cfg: Config)
    ensures WaitsOnlyFor(Init(cfg), {})
  {}

  lemma EventSettles(s: State, e: Event, now: Time)
    requires RegistryOk(s) && CallsOk(s) && s.up && s.cfg.walk.Intended? && StartsPassNow(s, e) && PassesVisitAll(s, e)
    ensures WaitsOnlyFor(Step(s, e, now), {})
  {
    hide RegistryOk, CallsOk, ProcessCommand, WaitsOnlyFor;
    match Parse(e.local, e.identity, e.body) {
      case Some((verb, m)) =>
        PassSettles(s, verb, m, e, now);
    }
  }

  // In every reachable state of a run with the intended walk: an idle module would serve a waiting call
  // exactly if one that would has introduced itself since the last pass, or there is one while the
  // interface of the call is not listed any more.
  lemma IdleWhileWaiting(cfg: Config, ticks: seq<Tick>, a: ActionId)
    requires var s := Run(cfg, ticks); s.up && a in s.queue && s.queue[a].routedVia.None?
    requires cfg.walk.Intended? && Visited(cfg, ticks)
    ensures var s := Run(cfg, ticks);
      var c := s.queue[a];
      Servable(s, c) <==>
        Offer(s, c).Some? && exists id <- At(s.store, Offer(s, c).value).locals ::
          IsIdle(s, id) && (Unlisted(s, c) || id in Introduced(cfg, ticks))
  {
    var s := Run(cfg, ticks);
    var c := s.queue[a];
    RunKeepsCalls(cfg, ticks);
    RunFits(cfg, ticks);
    RunWaits(cfg, ticks);
    assert CallOk(c, s.store);
    hide Run, Introduced, Visited, RegistryOk, CallsOk;
  }
}
