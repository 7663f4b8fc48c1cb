/** How a module joins: what an introduction does, entry by entry of the "provides" map in the message. */
module Joining {
  import opened Wrappers
  import opened Text
  import opened Messages
  import opened Tables
  import opened Steps
  import opened Registry
  import opened Gossip
  import opened System

  // ---------- one function ----------

  // A call of this function is bound to an interface that lists module id.
  ghost predicate Served(s: State, id: Id, mod: string, func: string, ver: U64) {
    match CheckInterface(s, mod, func, ver)
    case Some(r) => r in s.registry && r < |s.store| && Serves(s.store[r], mod, func, ver) && id in s.store[r].locals
    case None => false
  }

  // Interface i has at most got the provider id, of this function in this version or a lower one.
  predicate SameOrJoined(i: Iface, j: Iface, id: Id, name: string, versions: map<string, U64>) {
    j == i || (j == i.(locals := i.locals + [id]) && i.mod == name && i.func in versions && i.ver >= versions[i.func])
  }

  // New interfaces are those of functions that module id provides, and only list id.
  predicate IsNew(i: Iface, id: Id, name: string, versions: map<string, U64>) {
    i.func in versions && i == Iface(name, i.func, versions[i.func], [id], [])
  }

  // Nothing but the providers of the interfaces, and the interfaces new in the list, has changed.
  ghost predicate OnlyJoins(s: State, t: State, id: Id, name: string, versions: map<string, U64>) {
    && |s.store| <= |t.store| && t.registry == s.registry + Fresh(|s.store|, |t.store|)
    && (forall r | 0 <= r < |s.store| :: SameOrJoined(s.store[r], t.store[r], id, name, versions))
    && (forall r | |s.store| <= r < |t.store| :: IsNew(t.store[r], id, name, versions))
  }

  function Fresh(start: nat, end: nat): (rs: seq<Ref>)
    requires start <= end
    ensures |rs| == end - start
    ensures forall k | 0 <= k < |rs| :: rs[k] == start + k
    decreases end - start
  {
    if start == end then [] else [start] + Fresh(start + 1, end)
  }

  lemma FreshTwice(a: nat, b: nat, c: nat)
    requires a <= b <= c
    ensures Fresh(a, b) + Fresh(b, c) == Fresh(a, c)
  {}

  lemma OnlyJoinsTwice(s: State, t: State, u: State, id: Id, name: string, versions: map<string, U64>)
    requires OnlyJoins(s, t, id, name, versions) && OnlyJoins(t, u, id, name, versions)
    requires forall r | 0 <= r < |t.store| && id in t.store[r].locals :: u.store[r] == t.store[r]
    ensures OnlyJoins(s, u, id, name, versions)
  {
    FreshTwice(|s.store|, |t.store|, |u.store|);
    assert s.registry + Fresh(|s.store|, |t.store|) + Fresh(|t.store|, |u.store|) ==
      s.registry + (Fresh(|s.store|, |t.store|) + Fresh(|t.store|, |u.store|));
    forall r | 0 <= r < |s.store| ensures SameOrJoined(s.store[r], u.store[r], id, name, versions) {
      assert SameOrJoined(s.store[r], t.store[r], id, name, versions) && SameOrJoined(t.store[r], u.store[r], id, name, versions);
    }
    forall r | |s.store| <= r < |u.store| ensures IsNew(u.store[r], id, name, versions) {
      if r < |t.store| { assert IsNew(t.store[r], id, name, versions); }
    }
  }

  lemma ProvideJoins(s: State, name: string, key: string, id: Id, versions: map<string, U64>)
    requires key in versions && InStore(s)
    ensures var t := Provide(s, name, key, versions[key], id, true);
      && OnlyJoins(s, t, id, name, versions) && IfacesKept(s.store, t.store) && InStore(t)
      && (forall r | 0 <= r < |s.store| && id in s.store[r].locals :: t.store[r] == s.store[r])
  {
    hide CheckFrom, OnlyJoins, IfacesKept;
    var t := Provide(s, name, key, versions[key], id, true);
    CheckFromSpec(s.store, s.registry, name, key, versions[key]);
    match CheckInterface(s, name, key, versions[key]) {
      case Some(r) =>
        assert r in s.registry;
        ListJoins(s, t, r, AppendId(s.store[r], id, true), id, name, versions);
      case None =>
        assert [] + [id] == [id];
        if versions[key] != 0 { NewJoins(s, t, key, id, name, versions); } else { NothingJoins(s, t, id, name, versions); }
    }
  }

  lemma ListJoins(s: State, t: State, r: Ref, i: Iface, id: Id, name: string, versions: map<string, U64>)
    requires r < |s.store| && t.store == s.store[r := i] && t.registry == s.registry
    requires SameOrJoined(s.store[r], i, id, name, versions)
    ensures OnlyJoins(s, t, id, name, versions) && IfacesKept(s.store, t.store)
  {
    assert s.registry + [] == s.registry;
  }

  lemma NewJoins(s: State, t: State, key: string, id: Id, name: string, versions: map<string, U64>)
    requires key in versions && t.store == s.store + [Iface(name, key, versions[key], [id], [])]
    requires t.registry == s.registry + [|s.store|]
    ensures OnlyJoins(s, t, id, name, versions) && IfacesKept(s.store, t.store)
  {
    assert Fresh(|s.store|, |t.store|) == [|s.store|];
  }

  lemma ProvideServes(s: State, mod: string, func: string, ver: U64, id: Id)
    requires s.up && InStore(s)
    ensures var t := Provide(s, mod, func, ver, id, true); t.up ==> Served(t, id, mod, func, ver)
  {
    CheckFromSpec(s.store, s.registry, mod, func, ver);
    var t := Provide(s, mod, func, ver, id, true);
    match CheckInterface(s, mod, func, ver) {
      case Some(r) =>
        CheckStable(s.store, t.store, s.registry, [], mod, func, ver);
        assert s.registry + [] == s.registry;
      case None =>
        if ver != 0 { CheckMiss(s.store, t.store, s.registry, |s.store|, mod, func, ver); }
    }
  }

  lemma ServedStays(s: State, t: State, id: Id, mod: string, func: string, ver: U64)
    requires Served(s, id, mod, func, ver) && IfacesKept(s.store, t.store) && InStore(s)
    requires s.registry <= t.registry
    requires forall r | 0 <= r < |s.store| && id in s.store[r].locals :: t.store[r] == s.store[r]
    ensures Served(t, id, mod, func, ver)
  {
    var more := t.registry[|s.registry|..];
    assert s.registry + more == t.registry;
    CheckStable(s.store, t.store, s.registry, more, mod, func, ver);
    var r := CheckInterface(s, mod, func, ver).value;
    var k :| 0 <= k < |s.registry| && s.registry[k] == r;
    assert t.registry[k] == r;
  }

  // ---------- all of them ----------

  ghost predicate AllServed(s: State, id: Id, name: string, versions: map<string, U64>, keys: set<string>) {
    forall key <- keys | key in versions :: Served(s, id, name, key, versions[key])
  }

  lemma {:induction false} ProvideAllJoins(s: State, id: Id, name: string, versions: map<string, U64>, keys: seq<string>,
                                           done: set<string>)
    requires s.up && InStore(s) && AllServed(s, id, name, versions, done)
    ensures var t := ProvideAll(s, id, name, versions, keys);
      && OnlyJoins(s, t, id, name, versions)
      && (forall r | 0 <= r < |s.store| && id in s.store[r].locals :: t.store[r] == s.store[r])
      && (t.up ==> AllServed(t, id, name, versions, done + set key <- keys))
    decreases |keys|
  {
    hide Provide, Served, SameOrJoined, IsNew;
    if keys == [] {
      NothingJoins(s, s, id, name, versions);
    } else {
      assert keys == [keys[0]] + keys[1..];
      assert done + (set key <- keys) == done + {keys[0]} + set key <- keys[1..];
      if keys[0] in versions {
        var t := Provide(s, name, keys[0], versions[keys[0]], id, true);
        ProvideJoins(s, name, keys[0], id, versions);
        ProvideServes(s, name, keys[0], versions[keys[0]], id);
        if t.up {
          forall key <- done | key in versions ensures Served(t, id, name, key, versions[key]) {
            ServedStays(s, t, id, name, key, versions[key]);
          }
          ProvideAllJoins(t, id, name, versions, keys[1..], done + {keys[0]});
          OnlyJoinsTwice(s, t, ProvideAll(t, id, name, versions, keys[1..]), id, name, versions);
        }
      } else {
        ProvideAllJoins(s, id, name, versions, keys[1..], done + {keys[0]});
      }
    }
  }

  lemma NothingJoins(s: State, t: State, id: Id, name: string, versions: map<string, U64>)
    requires t.store == s.store && t.registry == s.registry
    ensures OnlyJoins(s, t, id, name, versions) && IfacesKept(s.store, t.store)
  {
    assert s.registry + [] == s.registry;
  }

  // ---------- an introduction ----------

  // The introduction has a name, a pid that the process manager knows, and a function in some version.
  ghost predicate IsTaken(s: State, e: Event, name: string, es: seq<Entry>) {
    && e.Arrive? && BodyString(e.body, "name") == Some(name) && GetPid(e.body) != 0 && (s.cfg.debug || e.known)
    && ProvidedEntries(e.body) == Some(es) && exists en <- es :: IsInteger(en.val)
  }

  // zhash_keys lists the keys of the unpacked map.
  ghost predicate ListsKeys(keys: seq<string>, es: seq<Entry>) {
    forall key :: key in keys <==> exists en <- es :: en.key == key && IsInteger(en.val)
  }

  // Every function in the map is served by module id, in the version given first at least.
  ghost predicate ServesAll(t: State, id: Id, name: string, es: seq<Entry>) {
    forall j | IsFirst(es, j) && IsInteger(es[j].val) :: Served(t, id, name, es[j].key, IntegerOf(es[j].val))
  }

  // The module is registered idle under its name and pid, unless its identity is taken; the process manager and
  // the module itself are told.
  ghost predicate HasJoined(s: State, t: State, m: Msg, name: string, es: seq<Entry>) {
    var id, pid := m.identity, GetPid(m.body);
    && ServesAll(t, id, name, es) && OnlyJoins(s, t, id, name, UnpackVersions(es))
    && t.modules == (if id in s.modules then s.modules else s.modules[id := Module(id, name, pid, Idle, false)])
    && t.commands == s.commands + [CheckPid(pid), Register(pid, name)]
    && t.sent == s.sent + [Sent(id, |id| <= LOCAL_ID_LENGTH || id in s.fabs, Introduced, m.actionid, Response("ok", m.actionid))]
    && t == s.(fabs := t.fabs, store := t.store, registry := t.registry,
               modules := t.modules, commands := t.commands, sent := t.sent)
  }

  lemma ServedIsServesAll(t: State, id: Id, name: string, es: seq<Entry>, keys: seq<string>)
    requires AllServed(t, id, name, UnpackVersions(es), {} + set key <- keys) && ListsKeys(keys, es)
    ensures ServesAll(t, id, name, es)
  {
    hide Served;
    forall j | IsFirst(es, j) && IsInteger(es[j].val) ensures Served(t, id, name, es[j].key, IntegerOf(es[j].val)) {
      FirstVersion(es, j);
      assert es[j] in es && es[j].key in keys;
    }
  }

  lemma SomeVersion(es: seq<Entry>)
    ensures UnpackVersions(es) != map[] <==> exists en <- es :: IsInteger(en.val)
  {
    if en :| en in es && IsInteger(en.val) { VersionKeys(es, en.key); }
    if key :| key in UnpackVersions(es) { VersionKeys(es, key); }
  }

  lemma ProcessedHasJoined(s: State, m: Msg, e: Event, name: string, es: seq<Entry>)
    requires s.up && InStore(s) && IsTaken(s, e, name, es) && ListsKeys(e.keys, es) && m.body == e.body
    ensures var t := ProcessIntroduce(s, m, e.known, e.keys); t.up ==> HasJoined(s, t, m, name, es)
  {
    hide OnlyJoins, AllServed, ServesAll, Response, BodyString, GetPid, ListsKeys;
    var versions, s1 := UnpackVersions(es), AskPid(s, m);
    SomeVersion(es);
    var s2, t := ProvideAll(s1, m.identity, name, versions, e.keys), ProcessIntroduce(s, m, e.known, e.keys);
    assert AllServed(s1, m.identity, name, versions, {}) by { NoneServed(s1, m.identity, name, versions); }
    ProvideAllJoins(s1, m.identity, name, versions, e.keys, {});
    ProvideAllFrame(s1, m.identity, name, versions, e.keys);
    if t.up {
      assert t == AddModule(s2, m, name);
      ServedIsServesAll(s2, m.identity, name, es, e.keys);
      SameTables(s1, s2, s, t, m.identity, name, es);
    }
  }

  lemma NoneServed(s: State, id: Id, name: string, versions: map<string, U64>)
    ensures AllServed(s, id, name, versions, {})
  {}

  lemma SameTables(s1: State, s2: State, s: State, t: State, id: Id, name: string, es: seq<Entry>)
    requires OnlyJoins(s1, s2, id, name, UnpackVersions(es)) && ServesAll(s2, id, name, es)
    requires s.store == s1.store && s.registry == s1.registry && t.store == s2.store && t.registry == s2.registry
    ensures OnlyJoins(s, t, id, name, UnpackVersions(es)) && ServesAll(t, id, name, es)
  {
    hide IsFirst, IsInteger, SameOrJoined, IsNew;
    assert forall mod, func, ver :: Served(s2, id, mod, func, ver) ==> Served(t, id, mod, func, ver);
  }

  lemma {:induction false} ProvideAllFrame(s: State, id: Id, name: string, versions: map<string, U64>, keys: seq<string>)
    ensures var t := ProvideAll(s, id, name, versions, keys); t == s.(up := t.up, store := t.store, registry := t.registry)
    decreases |keys|
  {
    hide CheckInterface;
    if keys != [] && s.up {
      var s1 := if keys[0] in versions then Provide(s, name, keys[0], versions[keys[0]], id, true) else s;
      ProvideAllFrame(s1, id, name, versions, keys[1..]);
    }
  }

  // An introduction that is taken, and that leaves the broker up, makes the module a provider of every function in
  // its map, and idle. Any other one only has the pid checked, if it has a name and a pid.
  lemma IntroductionIsHandled(s: State, e: Event, m: Msg, now: Time)
    requires s.up && RegistryOk(s) && e.Arrive? && Parse(e.local, e.identity, e.body) == Some((VIntroduce, m))
    ensures m.identity == e.identity && m.body == e.body
    ensures forall name, es | IsTaken(s, e, name, es) && ListsKeys(e.keys, es) && Step(s, e, now).up ::
      HasJoined(s, Step(s, e, now), m, name, es)
    ensures (forall name, es :: !IsTaken(s, e, name, es)) ==>
      Step(s, e, now) == s.(fabs := Step(s, e, now).fabs,
        commands := s.commands + if BodyString(e.body, "name").Some? && GetPid(e.body) != 0 then [CheckPid(GetPid(e.body))] else [])
  {
    hide HasJoined, ProcessIntroduce, ListsKeys, IsTaken;
    var s1, t := if e.local then s else MarkAlive(s, e.identity), Step(s, e, now);
    assert t == ProcessIntroduce(s1, m, e.known, e.keys);
    forall name, es | IsTaken(s, e, name, es) && ListsKeys(e.keys, es) && t.up ensures HasJoined(s, t, m, name, es) {
      SameTaken(s, s1, e, name, es);
      ProcessedHasJoined(s1, m, e, name, es);
      JoinedAlive(s, s1, t, m, name, es);
    }
    if forall name, es :: !IsTaken(s, e, name, es) {
      forall name, es ensures !IsTaken(s1, e, name, es) { SameTaken(s, s1, e, name, es); }
      NotTaken(s1, e, m);
    }
  }

  lemma SameTaken(s: State, s1: State, e: Event, name: string, es: seq<Entry>)
    requires s1.cfg == s.cfg
    ensures IsTaken(s1, e, name, es) == IsTaken(s, e, name, es)
  {}

  lemma JoinedAlive(s: State, s1: State, t: State, m: Msg, name: string, es: seq<Entry>)
    requires s1 == s.(fabs := s1.fabs) && s1.fabs.Keys == s.fabs.Keys && HasJoined(s1, t, m, name, es)
    ensures HasJoined(s, t, m, name, es)
  {
    hide ServesAll, Response, GetPid, SameOrJoined, IsNew;
  }

  lemma NotTaken(s: State, e: Event, m: Msg)
    requires e.Arrive? && m.body == e.body && forall name, es :: !IsTaken(s, e, name, es)
    ensures ProcessIntroduce(s, m, e.known, e.keys) == AskPid(s, m)
  {
    hide BodyString, GetPid;
    match (BodyString(m.body, "name"), GetProvides(m.body)) {
      case (Some(name), Some(versions)) =>
        var es := if ProvidedEntries(m.body).Some? then ProvidedEntries(m.body).value else [];
        assert !IsTaken(s, e, name, es);
        SomeVersion(es);
      case _ =>
    }
  }

  // The message that a module sends to introduce itself, with any number of functions
  lemma IntroducedModuleServes(s: State, e: Event, name: string, pid: U64, offers: seq<Entry>, a: ActionId, now: Time)
    requires s.up && RegistryOk(s) && Step(s, e, now).up && |a| >= 5
    requires e.Arrive? && e.body == Introduction(name, pid, offers, a) && ListsKeys(e.keys, offers)
    requires offers != [] && (forall en <- offers :: IsInteger(en.val)) && ToInt(pid) != 0 && (s.cfg.debug || e.known)
    ensures HasJoined(s, Step(s, e, now), Msg(e.identity, e.local, a, e.body), name, offers)
  {
    hide HasJoined, Step, Introduction, ListsKeys;
    ReadIntroduction(name, pid, offers, a);
    assert IsInteger(offers[0].val) && offers[0] in offers;
    var m := Msg(e.identity, e.local, a, e.body);
    assert e.body.MapV? by { IsMap(name, pid, offers, a); }
    assert Parse(e.local, e.identity, e.body) == Some((VIntroduce, m));
    assert IsTaken(s, e, name, offers);
    IntroductionIsHandled(s, e, m, now);
  }

  lemma IsMap(name: string, pid: U64, offers: seq<Entry>, a: ActionId)
    ensures Introduction(name, pid, offers, a).MapV?
  {}

  // Broker and manager together, with nothing on its way between them: the broker asks for the pid, the manager
  // answers, the broker reads the answer - and the module has joined exactly if its process is tracked.
  lemma TrackedModuleJoins(s: Sys, m: Msg, keys: seq<string>, name: string, es: seq<Entry>, newPid: int, at: nat, e: Event)
    returns (s1: Sys, s2: Sys, s3: Sys)
    requires s.waiting.None? && s.taken == |s.b.commands| && s.p.pipe == [] && s.b.up && RegistryOk(s.b) && !s.b.cfg.debug
    requires e.Arrive? && e.body == m.body && e.keys == keys && e.known == (GetPid(m.body) in s.p.procs)
    requires BodyString(e.body, "name") == Some(name) && GetPid(e.body) != 0
    requires ProvidedEntries(e.body) == Some(es) && (exists en <- es :: IsInteger(en.val)) && ListsKeys(keys, es)
    ensures Enabled(s, IntroStarts(m, keys)) && s1 == Next(s, IntroStarts(m, keys))
    ensures Enabled(s1, ProcmanObeys(newPid, at)) && s2 == Next(s1, ProcmanObeys(newPid, at))
    ensures Enabled(s2, IntroEnds) && s3 == Next(s2, IntroEnds) && s3.waiting.None? && s3.p.pipe == []
    ensures if GetPid(m.body) in s.p.procs then s3.b.up ==> HasJoined(s.b, s3.b, m, name, es)
            else s3.b == s1.b && s3.p == s.p
  {
    hide HasJoined, BodyString, ListsKeys, ProvideAll, AddModule;
    var pid := GetPid(m.body);
    s1 := Next(s, IntroStarts(m, keys));
    assert s1.b.commands == s.b.commands + [CheckPid(pid)];
    s2 := Next(s1, ProcmanObeys(newPid, at));
    assert s2.p.pipe == [PidAnswer(pid in s.p.procs)];
    s3 := Next(s2, IntroEnds);
    assert FinishIntroduce(AskPid(s.b, m), m, pid in s.p.procs, keys) == ProcessIntroduce(s.b, m, e.known, e.keys);
    if pid in s.p.procs {
      ProcessedHasJoined(s.b, m, e, name, es);
    }
  }
}
