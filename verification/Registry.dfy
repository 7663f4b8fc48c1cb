/** Integrity of the interface registry in every reachable state. */
module Registry {
  import opened Text
  import opened Messages
  import opened Tables
  import opened Steps

  ghost predicate NoDup<T>(xs: seq<T>) {
    forall i, j | 0 <= i < j < |xs| :: xs[i] != xs[j]
  }

  ghost predicate IfaceOk(i: Iface, mods: set<Id>, fabs: set<Id>) {
    && NoDup(i.locals) && NoDup(i.globals)
    && (forall id <- i.locals :: id in mods)
    && (forall id <- i.globals :: id in fabs)
  }

  // Within one (mod, func) the list is strictly increasing in version.
  ghost predicate VersionsRise(store: seq<Iface>, registry: seq<Ref>) {
    forall i, j | 0 <= i < j < |registry| ::
      At(store, registry[i]).mod == At(store, registry[j]).mod &&
      At(store, registry[i]).func == At(store, registry[j]).func ==>
      At(store, registry[i]).ver < At(store, registry[j]).ver
  }

  // Every provider listed is known; an interface is registered exactly while it has a provider.
  ghost predicate RegOk(store: seq<Iface>, registry: seq<Ref>, mods: set<Id>, fabs: set<Id>) {
    && NoDup(registry)
    && (forall r <- registry :: r < |store|)
    && (forall r | 0 <= r < |store| ::
         && IfaceOk(store[r], mods, fabs)
         && (r in registry <==> !EmptyIface(store[r]))
         && (r in registry ==> store[r].ver > 0))
    && VersionsRise(store, registry)
  }

  ghost predicate InStore(s: State) { forall r <- s.registry :: r < |s.store| }

  ghost predicate RegistryOk(s: State) {
    && RegOk(s.store, s.registry, s.modules.Keys, s.fabs.Keys)
    && (forall id <- s.modules :: s.modules[id].identity == id)
  }

  // The names and versions behind existing references never change.
  ghost predicate IfacesKept(before: seq<Iface>, after: seq<Iface>) {
    && |before| <= |after|
    && (forall r | 0 <= r < |before| ::
         after[r].mod == before[r].mod && after[r].func == before[r].func && after[r].ver == before[r].ver)
  }

  // ---------- check_interface ----------

  lemma {:induction false} CheckFromSpec(store: seq<Iface>, registry: seq<Ref>, mod: string, func: string, ver: U64)
    ensures match CheckFrom(store, registry, mod, func, ver)
      case Some(r) =>
        exists k :: 0 <= k < |registry| && registry[k] == r && Serves(At(store, r), mod, func, ver) &&
          forall j | 0 <= j < k :: !Serves(At(store, registry[j]), mod, func, ver)
      case None => forall r <- registry :: !Serves(At(store, r), mod, func, ver)
  {
    if registry == [] || Serves(At(store, registry[0]), mod, func, ver) {
    } else {
      CheckFromSpec(store, registry[1..], mod, func, ver);
      var found := CheckFrom(store, registry[1..], mod, func, ver);
      if found.Some? {
        var k :| 0 <= k < |registry[1..]| && registry[1..][k] == found.value &&
          Serves(At(store, found.value), mod, func, ver) &&
          forall j | 0 <= j < k :: !Serves(At(store, registry[1..][j]), mod, func, ver);
        assert registry[k + 1] == found.value;
        forall j | 0 <= j < k + 1 ensures !Serves(At(store, registry[j]), mod, func, ver) {
          if j > 0 { assert registry[1..][j - 1] == registry[j]; }
        }
      }
    }
  }

  // The interface a request is bound to is the one of the lowest sufficient version.
  lemma LowestSufficientVersion(s: State, mod: string, func: string, ver: U64)
    requires VersionsRise(s.store, s.registry)
    ensures match CheckInterface(s, mod, func, ver)
      case Some(r) =>
        && r in s.registry && Serves(At(s.store, r), mod, func, ver)
        && forall q <- s.registry | Serves(At(s.store, q), mod, func, ver) ::
             At(s.store, r).ver <= At(s.store, q).ver
      case None => forall q <- s.registry :: !Serves(At(s.store, q), mod, func, ver)
  {
    CheckFromSpec(s.store, s.registry, mod, func, ver);
  }

  // ---------- adding a provider ----------

  lemma RiseStable(before: seq<Iface>, after: seq<Iface>, registry: seq<Ref>)
    requires IfacesKept(before, after) && VersionsRise(before, registry)
    requires forall r <- registry :: r < |before|
    ensures VersionsRise(after, registry)
  {
    assert forall r <- registry ::
      At(after, r).mod == At(before, r).mod && At(after, r).func == At(before, r).func && At(after, r).ver == At(before, r).ver;
  }

  lemma AddProvider(store: seq<Iface>, registry: seq<Ref>, r: Ref, i: Iface, mods: set<Id>, fabs: set<Id>)
    requires RegOk(store, registry, mods, fabs) && r in registry
    requires IfaceOk(i, mods, fabs) && !EmptyIface(i)
    requires i.mod == store[r].mod && i.func == store[r].func && i.ver == store[r].ver
    ensures RegOk(store[r := i], registry, mods, fabs) && IfacesKept(store, store[r := i])
  {
    RiseStable(store, store[r := i], registry);
  }

  lemma AddIface(store: seq<Iface>, registry: seq<Ref>, i: Iface, mods: set<Id>, fabs: set<Id>)
    requires RegOk(store, registry, mods, fabs)
    requires IfaceOk(i, mods, fabs) && !EmptyIface(i) && i.ver > 0
    requires forall r <- registry :: !Serves(At(store, r), i.mod, i.func, i.ver)
    ensures RegOk(store + [i], registry + [|store|], mods, fabs) && IfacesKept(store, store + [i])
  {
    var store', registry' := store + [i], registry + [|store|];
    RiseStable(store, store', registry);
    forall r | 0 <= r < |store'|
      ensures IfaceOk(store'[r], mods, fabs)
      ensures r in registry' <==> !EmptyIface(store'[r])
      ensures r in registry' ==> store'[r].ver > 0
    {
      if r < |store| { assert store'[r] == store[r]; assert r in registry' <==> r in registry; }
    }
    forall k, j | 0 <= k < j < |registry'|
      ensures registry'[k] != registry'[j]
      ensures (At(store', registry'[k]).mod == At(store', registry'[j]).mod &&
               At(store', registry'[k]).func == At(store', registry'[j]).func) ==>
              At(store', registry'[k]).ver < At(store', registry'[j]).ver
    {
      assert registry'[k] == registry[k] && registry[k] in registry;
      assert At(store', registry[k]) == At(store, registry[k]);
      if j < |registry| {
        assert registry'[j] == registry[j] && registry[j] in registry;
      }
    }
  }

  lemma ProvideKeepsRegOk(s: State, mod: string, func: string, ver: U64, id: Id, asLocal: bool,
                          mods: set<Id>, fabs: set<Id>)
    requires RegOk(s.store, s.registry, mods, fabs)
    requires if asLocal then id in mods else id in fabs
    ensures var t := Provide(s, mod, func, ver, id, asLocal);
      && RegOk(t.store, t.registry, mods, fabs)
      && IfacesKept(s.store, t.store)
      && t == s.(up := t.up, store := t.store, registry := t.registry)
  {
    CheckFromSpec(s.store, s.registry, mod, func, ver);
    match CheckInterface(s, mod, func, ver) {
      case Some(r) =>
        assert r in s.registry;
        AddProvider(s.store, s.registry, r, AppendId(s.store[r], id, asLocal), mods, fabs);
      case None =>
        if ver != 0 {
          AddIface(s.store, s.registry, AppendId(Iface(mod, func, ver, [], []), id, asLocal), mods, fabs);
        }
    }
  }

  // An interface of that name and version, or of a higher one
  ghost predicate HasVersion(s: State, mod: string, func: string, ver: U64) {
    exists q <- s.registry :: At(s.store, q).mod == mod && At(s.store, q).func == func && At(s.store, q).ver == ver
  }

  ghost predicate HasHigherVersion(s: State, mod: string, func: string, ver: U64) {
    exists q <- s.registry :: At(s.store, q).mod == mod && At(s.store, q).func == func && At(s.store, q).ver > ver
  }

  // Where a provider ends up: in an interface of its own version, or - exactly if there is none but
  // one of a higher version - in that one, whose version it does not provide.
  lemma ProviderIsListed(s: State, mod: string, func: string, ver: U64, id: Id, asLocal: bool, mods: set<Id>, fabs: set<Id>)
    requires RegOk(s.store, s.registry, mods, fabs) && (if asLocal then id in mods else id in fabs)
    requires s.up && Provide(s, mod, func, ver, id, asLocal).up
    ensures var t := Provide(s, mod, func, ver, id, asLocal);
      exists r <- t.registry ::
        var i := At(t.store, r);
        && i.mod == mod && i.func == func && i.ver >= ver && id in (if asLocal then i.locals else i.globals)
        && (i.ver > ver <==> HasHigherVersion(s, mod, func, ver) && !HasVersion(s, mod, func, ver))
  {
    hide NoDup, IfaceOk, VersionsRise, CheckFrom;
    LowestSufficientVersion(s, mod, func, ver);
    var t := Provide(s, mod, func, ver, id, asLocal);
    var hit := CheckInterface(s, mod, func, ver);
    var r := if hit.Some? then hit.value else |s.store|;
    assert r in t.registry;
    var i := At(t.store, r);
    assert id in if asLocal then i.locals else i.globals;
    assert hit.Some? ==> At(s.store, r).ver == i.ver && (i.ver > ver ==> HasHigherVersion(s, mod, func, ver));
  }

  lemma {:induction false} ProvideAllKeepsRegOk(s: State, id: Id, name: string, versions: map<string, U64>,
                                                keys: seq<string>, mods: set<Id>, fabs: set<Id>)
    requires RegOk(s.store, s.registry, mods, fabs) && id in mods
    ensures var t := ProvideAll(s, id, name, versions, keys);
      && RegOk(t.store, t.registry, mods, fabs)
      && IfacesKept(s.store, t.store)
      && t == s.(up := t.up, store := t.store, registry := t.registry)
    decreases |keys|
  {
    if keys != [] && s.up {
      var s1 := if keys[0] in versions then Provide(s, name, keys[0], versions[keys[0]], id, true) else s;
      if keys[0] in versions { ProvideKeepsRegOk(s, name, keys[0], versions[keys[0]], id, true, mods, fabs); }
      ProvideAllKeepsRegOk(s1, id, name, versions, keys[1..], mods, fabs);
    }
  }

  lemma {:induction false} MergeListKeepsRegOk(s: State, fab: Id, paths: seq<string>, mods: set<Id>, fabs: set<Id>)
    requires RegOk(s.store, s.registry, mods, fabs) && fab in fabs
    ensures var t := MergeList(s, fab, paths);
      && RegOk(t.store, t.registry, mods, fabs)
      && IfacesKept(s.store, t.store)
      && t == s.(up := t.up, store := t.store, registry := t.registry)
    decreases |paths|
  {
    if paths != [] && s.up {
      match ParsePath(paths[0]) {
        case Some((mod, func, ver)) =>
          ProvideKeepsRegOk(s, mod, func, ver, fab, false, mods, fabs);
          MergeListKeepsRegOk(Provide(s, mod, func, ver, fab, false), fab, paths[1..], mods, fabs);
        case None =>
          MergeListKeepsRegOk(s, fab, paths[1..], mods, fabs);
      }
    }
  }

  // ---------- removing a provider ----------

  lemma {:induction false} WithoutSpec(ids: seq<Id>, id: Id)
    requires NoDup(ids)
    ensures NoDup(Without(ids, id))
    ensures forall x :: x in Without(ids, id) <==> x in ids && x != id
  {
    if ids != [] {
      assert NoDup(ids[1..]);
      assert ids == [ids[0]] + ids[1..];
      if ids[0] != id {
        WithoutSpec(ids[1..], id);
        var rest := Without(ids[1..], id);
        forall j | 0 <= j < |rest| ensures rest[j] != ids[0] {
          assert rest[j] in rest;
          assert rest[j] in ids[1..];
        }
      }
    }
  }

  lemma {:induction false} LiveMembers(registry: seq<Ref>, store: seq<Iface>)
    ensures forall r :: r in Live(registry, store) <==> r in registry && !EmptyIface(At(store, r))
    ensures NoDup(registry) ==> NoDup(Live(registry, store))
  {
    hide EmptyIface, At;
    if registry != [] {
      assert registry == [registry[0]] + registry[1..];
      LiveMembers(registry[1..], store);
      if NoDup(registry) {
        assert NoDup(registry[1..]) && registry[0] !in registry[1..];
        assert registry[0] !in Live(registry[1..], store);
      }
    }
  }

  lemma {:induction false} LiveRises(registry: seq<Ref>, store: seq<Iface>)
    requires VersionsRise(store, registry)
    ensures VersionsRise(store, Live(registry, store))
  {
    hide EmptyIface, At;
    if registry != [] {
      var rest, live := registry[1..], Live(registry[1..], store);
      LiveRises(rest, store);
      LiveMembers(rest, store);
      forall j | 0 <= j < |live| ensures exists k :: 1 <= k < |registry| && registry[k] == live[j] {
        assert live[j] in rest;
        var k :| 0 <= k < |rest| && rest[k] == live[j];
        assert registry[k + 1] == live[j];
      }
    }
  }

  lemma LiveSpec(registry: seq<Ref>, store: seq<Iface>)
    requires NoDup(registry)
    ensures NoDup(Live(registry, store))
    ensures forall r :: r in Live(registry, store) <==> r in registry && !EmptyIface(At(store, r))
    ensures VersionsRise(store, registry) ==> VersionsRise(store, Live(registry, store))
  {
    LiveMembers(registry, store);
    if VersionsRise(store, registry) { LiveRises(registry, store); }
  }

  // Deleting while iterating visits every interface: afterwards the identity is listed nowhere,
  // and exactly the interfaces left without a provider are gone.
  lemma IfaceRemoveKeepsRegOk(s: State, id: Id, mods: set<Id>, fabs: set<Id>)
    requires RegOk(s.store, s.registry, mods, fabs)
    ensures var t := IfaceRemove(s, id);
      && RegOk(t.store, t.registry, mods - {id}, fabs - {id})
      && IfacesKept(s.store, t.store) && |s.store| == |t.store|
      && (forall r | 0 <= r < |s.store| :: id !in t.store[r].locals && id !in t.store[r].globals)
      && (forall r <- s.registry :: r in t.registry <==> !EmptyIface(PurgeIface(s.store[r], id)))
  {
    hide Live;
    var t := IfaceRemove(s, id);
    LiveSpec(s.registry, t.store);
    forall r | 0 <= r < |s.store|
      ensures IfaceOk(t.store[r], mods - {id}, fabs - {id})
      ensures id !in t.store[r].locals && id !in t.store[r].globals
    {
      assert IfaceOk(s.store[r], mods, fabs);
      WithoutSpec(s.store[r].locals, id);
      WithoutSpec(s.store[r].globals, id);
    }
    assert VersionsRise(t.store, s.registry) by {
      forall q <- s.registry
        ensures At(t.store, q) == PurgeIface(At(s.store, q), id)
      {
      }
    }
  }

  // The identity is listed nowhere any more, every other provider where it was; an interface is still listed
  // exactly if it has another provider, and nothing else is new in the list.
  ghost predicate OnlyTakesOut(s: State, t: State, id: Id) {
    && |t.store| == |s.store|
    && (forall r | 0 <= r < |s.store| :: ListsTheOthers(s.store[r], t.store[r], id))
    && (forall r :: r in t.registry <==> r in s.registry && HasOther(At(s.store, r), id))
  }

  ghost predicate ListsTheOthers(i: Iface, j: Iface, id: Id) {
    && j.mod == i.mod && j.func == i.func && j.ver == i.ver
    && (forall x :: x in j.locals <==> x in i.locals && x != id)
    && (forall x :: x in j.globals <==> x in i.globals && x != id)
  }

  ghost predicate HasOther(i: Iface, id: Id) { exists x :: (x in i.locals || x in i.globals) && x != id }

  lemma PurgedListsTheOthers(i: Iface, id: Id)
    requires NoDup(i.locals) && NoDup(i.globals)
    ensures ListsTheOthers(i, PurgeIface(i, id), id) && (EmptyIface(PurgeIface(i, id)) <==> !HasOther(i, id))
  {
    hide NoDup, Without;
    WithoutSpec(i.locals, id);
    WithoutSpec(i.globals, id);
    var j := PurgeIface(i, id);
    if j.locals != [] { assert j.locals[0] in j.locals; }
    if j.globals != [] { assert j.globals[0] in j.globals; }
  }

  lemma RemoveSparesOthers(s: State, id: Id, mods: set<Id>, fabs: set<Id>)
    requires RegOk(s.store, s.registry, mods, fabs)
    ensures OnlyTakesOut(s, IfaceRemove(s, id), id)
  {
    var t := IfaceRemove(s, id);
    LiveSpec(s.registry, t.store);
    hide Live, VersionsRise, PurgeIface, ListsTheOthers, HasOther;
    forall r | 0 <= r < |s.store|
      ensures ListsTheOthers(s.store[r], t.store[r], id)
      ensures r in t.registry <==> r in s.registry && HasOther(At(s.store, r), id)
    {
      assert IfaceOk(s.store[r], mods, fabs);
      PurgedListsTheOthers(s.store[r], id);
      if r !in s.registry { EmptyListsNobody(s.store[r], id); }
    }
  }

  lemma EmptyListsNobody(i: Iface, id: Id)
    requires EmptyIface(i)
    ensures ListsTheOthers(i, i, id)
  {}

  // ---------- frames ----------

  // Only module states differ.
  ghost predicate ModulesKept(before: map<Id, Module>, after: map<Id, Module>) {
    && after.Keys == before.Keys
    && (forall id <- before :: after[id] == before[id].(state := after[id].state))
  }

  lemma DispatchFrame(s: State, c: Call, to: Id, now: Time)
    ensures var p := Dispatch(s, c, to, now);
      && p.st == s.(modules := p.st.modules, sent := p.st.sent)
      && ModulesKept(s.modules, p.st.modules)
      && p.rc == 0
  {
  }

  lemma PlaceCallFrame(s: State, c: Call, now: Time)
    ensures var p := PlaceCall(s, c, now);
      && p.st == s.(up := p.st.up, modules := p.st.modules, sent := p.st.sent)
      && ModulesKept(s.modules, p.st.modules)
      && (p.rc == -1 ==> p.st == s)
  {
    var b := Bind(s, c);
    if c.routedVia.None? && b.iface.Some? {
      var t := Route(s, b, At(s.store, b.iface.value));
      if t.To? { DispatchFrame(s, b, t.id, now); }
    }
  }

  lemma {:induction false} DrainFrame(s: State, order: seq<ActionId>, now: Time)
    ensures var t := Drain(s, order, now);
      && t == s.(up := t.up, modules := t.modules, sent := t.sent, queue := t.queue)
      && ModulesKept(s.modules, t.modules)
      && t.queue.Keys == s.queue.Keys
    decreases |order|
  {
    if order != [] && s.up {
      if order[0] in s.queue {
        PlaceCallFrame(s, s.queue[order[0]], now);
        var p := PlaceQueued(s, order[0], now);
        if p.rc == 0 { DrainFrame(p.st, order[1..], now); }
      } else {
        DrainFrame(s, order[1..], now);
      }
    }
  }

  lemma ReleaseFrame(s: State, id: Id, order: seq<ActionId>, now: Time)
    ensures var t := Release(s, id, order, now);
      && t == s.(up := t.up, modules := t.modules, sent := t.sent, queue := t.queue, commands := t.commands)
      && ModulesKept(s.modules, t.modules)
      && t.queue.Keys == s.queue.Keys
  {
    if id in s.modules && !s.modules[id].needRestart {
      DrainFrame(SetState(s, id, Idle), order, now);
    }
  }

  // A reply changes no table but the queue and module states.
  ghost predicate ReplyOnly(s: State, t: State) {
    && t.store == s.store && t.registry == s.registry && t.fabs == s.fabs && t.cfg == s.cfg
    && ModulesKept(s.modules, t.modules)
  }

  lemma LocalReplyFrame(s: State, c: Call, m: Msg, order: seq<ActionId>, now: Time)
    ensures ReplyOnly(s, LocalReply(s, c, m, order, now))
    ensures LocalReply(s, c, m, order, now).queue.Keys == s.queue.Keys - {m.actionid}
  {
    ReleaseFrame(Finish(s, c, m), m.identity, order, now);
  }

  lemma ReplyFrame(s: State, m: Msg, order: seq<ActionId>, now: Time)
    requires m.actionid in s.queue
    ensures ReplyOnly(s, ProcessResult(s, m, order, now))
    ensures ReplyOnly(s, ProcessException(s, m, order, now))
  {
    hide PlaceCall, LocalReply;
    LocalReplyFrame(s, s.queue[m.actionid], m, order, now);
    PlaceCallFrame(s, s.queue[m.actionid], now);
  }

  // ---------- every handler ----------

  // What the second half of an introduction changes
  ghost predicate IntroduceOnly(s: State, t: State, m: Msg) {
    && t.cfg == s.cfg && t.fabs == s.fabs && t.queue == s.queue && t.dropped == s.dropped
    && IfacesKept(s.store, t.store)
    && ((t.modules == s.modules && t.commands == s.commands && t.sent == s.sent)
        || (exists name ::
              && t.commands == s.commands + [Register(GetPid(m.body), name)]
              && |t.sent| == |s.sent| + 1 && t.sent[..|s.sent|] == s.sent && t.sent[|s.sent|].kind.Introduced?
              && (|t.sent[|s.sent|].to| <= LOCAL_ID_LENGTH ==> t.sent[|s.sent|].reached)
              && t.modules == if m.identity in s.modules then s.modules
                 else s.modules[m.identity := Module(m.identity, name, GetPid(m.body), Idle, false)]))
  }

  lemma FinishIntroduceKeepsRegistry(s: State, m: Msg, known: bool, keys: seq<string>)
    requires RegistryOk(s)
    ensures var t := FinishIntroduce(s, m, known, keys);
      && (t.up ==> RegistryOk(t)) && IntroduceOnly(s, t, m)
      && (t.commands != s.commands ==> s.cfg.debug || known)
  {
    match (BodyString(m.body, "name"), GetProvides(m.body)) {
      case (Some(name), Some(versions)) =>
        var mods := s.modules.Keys + {m.identity};
        ProvideAllKeepsRegOk(s, m.identity, name, versions, keys, mods, s.fabs.Keys);
        var s1 := ProvideAll(s, m.identity, name, versions, keys);
        var t := FinishIntroduce(s, m, known, keys);
        if s1.up && t != s {
          assert t == AddModule(s1, m, name);
          assert t.modules.Keys == mods;
        }
      case _ =>
    }
  }

  lemma IntroduceKeepsRegistry(s: State, m: Msg, known: bool, keys: seq<string>)
    requires RegistryOk(s)
    ensures var t := ProcessIntroduce(s, m, known, keys);
      (t.up ==> RegistryOk(t)) && IntroduceOnly(AskPid(s, m), t, m)
  {
    FinishIntroduceKeepsRegistry(AskPid(s, m), m, known, keys);
  }

  lemma IfaceListKeepsRegistry(s: State, m: Msg)
    requires RegistryOk(s)
    ensures var t := ProcessIfaceList(s, m);
      && (t.up ==> RegistryOk(t)) && IfacesKept(s.store, t.store)
      && t == s.(up := t.up, store := t.store, registry := t.registry)
  {
    match GetIfaceList(m.body) {
      case Some(paths) =>
        if m.identity in s.fabs {
          MergeListKeepsRegOk(s, m.identity, paths, s.modules.Keys, s.fabs.Keys);
        }
      case None =>
    }
  }

  lemma RemoveModuleKeepsRegistry(s: State, id: Id)
    requires RegistryOk(s)
    ensures RegistryOk(RemoveModule(s, id)) && IfacesKept(s.store, RemoveModule(s, id).store)
  {
    IfaceRemoveKeepsRegOk(s, id, s.modules.Keys, s.fabs.Keys);
    assert RemoveModule(s, id).modules.Keys == s.modules.Keys - {id};
  }

  lemma SweepItemKeepsRegistry(s: State, a: ActionId, now: Time)
    requires RegistryOk(s)
    ensures RegistryOk(SweepItem(s, a, now)) && IfacesKept(s.store, SweepItem(s, a, now).store)
  {
    if a in s.queue && ProcessExpired(s.cfg, s.queue[a], now) {
      var id := s.queue[a].routedVia.value;
      if id in s.modules { RemoveModuleKeepsRegistry(Tell(s, Restart(s.modules[id].pid)), id); }
    }
  }

  lemma {:induction false} SweepKeepsRegistry(s: State, order: seq<ActionId>, now: Time)
    requires RegistryOk(s)
    ensures RegistryOk(Sweep(s, order, now)) && IfacesKept(s.store, Sweep(s, order, now).store)
    decreases |order|
  {
    hide RegistryOk, SweepItem;
    if order != [] {
      SweepItemKeepsRegistry(s, order[0], now);
      SweepKeepsRegistry(SweepItem(s, order[0], now), order[1..], now);
    }
  }

  lemma PollItemKeepsRegistry(s: State, q: Polled)
    requires RegistryOk(s)
    ensures RegistryOk(PollItem(s, q)) && IfacesKept(s.store, PollItem(s, q).store)
  {
    IfaceRemoveKeepsRegOk(s, q.fab, s.modules.Keys, s.fabs.Keys);
    var t := PollItem(s, q);
    assert q.fab in s.fabs ==> t.fabs.Keys == if s.fabs[q.fab] then s.fabs.Keys else s.fabs.Keys - {q.fab};
  }

  lemma {:induction false} PollKeepsRegistry(s: State, order: seq<Polled>)
    requires RegistryOk(s)
    ensures RegistryOk(Poll(s, order)) && IfacesKept(s.store, Poll(s, order).store)
    decreases |order|
  {
    hide RegistryOk, PollItem;
    if order != [] {
      PollItemKeepsRegistry(s, order[0]);
      PollKeepsRegistry(PollItem(s, order[0]), order[1..]);
    }
  }

  lemma CallKeepsRegistry(s: State, m: Msg, now: Time)
    ensures var t := ProcessCall(s, m, now);
      && t.store == s.store && t.registry == s.registry && t.fabs == s.fabs && t.cfg == s.cfg
      && ModulesKept(s.modules, t.modules)
  {
    hide PlaceCall;
    var c := CallOf(m, now);
    if c.Some? { PlaceCallFrame(s, c.value, now); }
  }

  lemma CommandKeepsRegistry(s: State, verb: Verb, m: Msg, e: Event, now: Time)
    requires RegistryOk(s) && e.Arrive?
    ensures var t := ProcessCommand(s, verb, m, e, now);
      (t.up ==> RegistryOk(t)) && IfacesKept(s.store, t.store)
  {
    match verb {
      case VResult =>
        if m.actionid in s.queue { ReplyFrame(s, m, e.order, now); } else { IfaceListKeepsRegistry(s, m); }
      case VException =>
        if m.actionid in s.queue { ReplyFrame(s, m, e.order, now); }
      case VCall => CallKeepsRegistry(s, m, now);
      case VIntroduce => IntroduceKeepsRegistry(s, m, e.known, e.keys);
      case _ =>
    }
  }

  lemma MessageKeepsRegistry(s: State, e: Event, now: Time)
    requires RegistryOk(s) && e.Arrive?
    ensures var t := OnMessage(s, e, now); (t.up ==> RegistryOk(t)) && IfacesKept(s.store, t.store)
  {
    match Parse(e.local, e.identity, e.body) {
      case Some((verb, m)) =>
        var s1 := if e.local then s else MarkAlive(s, e.identity);
        assert s1.fabs.Keys == s.fabs.Keys;
        CommandKeepsRegistry(s1, verb, m, e, now);
      case None =>
    }
  }

  lemma ProcmanKeepsRegistry(s: State, f: Frame, order: seq<Id>)
    requires RegistryOk(s)
    ensures var t := OnProcman(s, f, order); RegistryOk(t) && IfacesKept(s.store, t.store)
  {
    var hit := FirstWithPid(s.modules, order, FramePid(f));
    if FramePid(f) != 0 && hit.Some? {
      if f.Removed? { RemoveModuleKeepsRegistry(s, hit.value); }
      else { assert RestartModule(s, hit.value).modules.Keys == s.modules.Keys; }
    }
  }

  lemma StepKeepsRegistry(s: State, e: Event, now: Time)
    requires RegistryOk(s)
    ensures var t := Step(s, e, now); (t.up ==> RegistryOk(t)) && IfacesKept(s.store, t.store)
  {
    if s.up {
      match e {
        case Arrive(_, _, _, _, _, _) => MessageKeepsRegistry(s, e, now);
        case SweepTimer(order) => SweepKeepsRegistry(s, order, now);
        case PollTimer(order) => PollKeepsRegistry(s, order);
        case Beacon(id, connected) =>
        case FromProcman(f, order) => ProcmanKeepsRegistry(s, f, order);
      }
    }
  }

  // Over any run: while the broker is up, no registered interface is empty, no id list has
  // duplicates, every listed provider is known, and versions rise within one (mod, func).
  lemma {:induction false} RunKeepsRegistry(cfg: Config, ticks: seq<Tick>)
    ensures Run(cfg, ticks).up ==> RegistryOk(Run(cfg, ticks))
  {
    if ticks != [] {
      var last := ticks[|ticks| - 1];
      RunKeepsRegistry(cfg, ticks[..|ticks| - 1]);
      if Run(cfg, ticks[..|ticks| - 1]).up {
        StepKeepsRegistry(Run(cfg, ticks[..|ticks| - 1]), last.ev, last.now);
      }
    }
  }
}
