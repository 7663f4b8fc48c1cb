/** Exactly which events bring the broker down: the guards of the branches that meet a null pointer. */
module Staying {
  import opened Wrappers
  import opened Text
  import opened Messages
  import opened Tables
  import opened Steps
  import opened Registry
  import opened Queue

  // ---------- the guards ----------

  // The interface has a local provider, and one elsewhere that is not in the table of modules.
  predicate Mixed(s: State, r: Ref) {
    At(s.store, r).locals != [] && exists id <- At(s.store, r).globals :: id !in s.modules
  }

  // A waiting call whose interface has providers here and elsewhere
  predicate Stuck(s: State, a: ActionId) {
    && a in s.queue && s.queue[a].routedVia.None?
    && s.queue[a].iface.Some? && Mixed(s, s.queue[a].iface.value)
  }

  // The pass over the queue comes to such a call. `answered` has left the queue before.
  ghost predicate DrainCrashes(s: State, order: seq<ActionId>, answered: Option<ActionId>) {
    s.cfg.walk.AsWritten? && exists k | 0 <= k < |order| :: Some(order[k]) != answered && Stuck(s, order[k])
  }

  predicate CallCrashes(s: State, m: Msg, now: Time) {
    s.cfg.walk.AsWritten? &&
    match CallOf(m, now)
    case None => false
    case Some(c) =>
      match CheckInterface(s, c.mod, c.func, c.ver)
      case None => false
      case Some(r) => Mixed(s, r)
  }

  ghost predicate LocalReplyCrashes(s: State, m: Msg, order: seq<ActionId>) {
    && m.identity in s.modules && !s.modules[m.identity].needRestart
    && DrainCrashes(s, order, Some(m.actionid))
  }

  // An interface of that name is registered, in whatever version.
  ghost predicate Named(s: State, mod: string, func: string) {
    exists r <- s.registry :: At(s.store, r).mod == mod && At(s.store, r).func == func
  }

  predicate PathNames(path: string, mod: string, func: string) {
    ParsePath(path).Some? && ParsePath(path).value.0 == mod && ParsePath(path).value.1 == func
  }

  // The list has an interface in version 0 that is neither registered nor earlier on the list.
  ghost predicate ListCrashes(s: State, paths: seq<string>) {
    exists k | 0 <= k < |paths| ::
      && ParsePath(paths[k]).Some? && ParsePath(paths[k]).value.2 == 0
      && var (mod, func, _) := ParsePath(paths[k]).value;
         !Named(s, mod, func) && forall j | 0 <= j < k :: !PathNames(paths[j], mod, func)
  }

  // An unknown sender is dereferenced before its list is looked at.
  ghost predicate IfaceListCrashes(s: State, m: Msg) {
    match GetIfaceList(m.body)
    case None => false
    case Some(paths) => m.identity !in s.fabs || ListCrashes(s, paths)
  }

  // A key in version 0 whose interface is not registered
  ghost predicate Unnamed(s: State, name: string, versions: map<string, U64>, key: string) {
    key in versions && versions[key] == 0 && !Named(s, name, key)
  }

  ghost predicate IntroduceCrashes(s: State, m: Msg, known: bool, keys: seq<string>) {
    match (BodyString(m.body, "name"), GetProvides(m.body))
    case (Some(name), Some(versions)) =>
      && GetPid(m.body) != 0 && (s.cfg.debug || known) && versions != map[]
      && exists k | 0 <= k < |keys| :: Unnamed(s, name, versions, keys[k])
    case _ => false
  }

  ghost predicate ExceptionCrashes(s: State, m: Msg, order: seq<ActionId>) {
    m.actionid in s.queue &&
    var c := s.queue[m.actionid];
    if m.local then !(c.local && m.identity !in s.modules) && LocalReplyCrashes(s, m, order)
    else s.cfg.walk.AsWritten? && c.local && ToInt(BodyInt(m.body, "exception")) == MODULES_BUSY && Stuck(s, m.actionid)
  }

  ghost predicate CommandCrashes(s: State, verb: Verb, m: Msg, e: Event, now: Time)
    requires e.Arrive?
  {
    match verb
    case VCall => CallCrashes(s, m, now)
    case VResult =>
      if m.actionid in s.queue then m.local && LocalReplyCrashes(s, m, e.order) else IfaceListCrashes(s, m)
    case VException => ExceptionCrashes(s, m, e.order)
    case VIntroduce => IntroduceCrashes(s, m, e.known, e.keys)
    case _ => false
  }

  ghost predicate Crashes(s: State, e: Event, now: Time) {
    e.Arrive? &&
    match Parse(e.local, e.identity, e.body)
    case None => false
    case Some((verb, m)) => CommandCrashes(s, verb, m, e, now)
  }

  // ---------- placing calls ----------

  lemma PlaceCallUp(s: State, c: Call, now: Time)
    requires RegistryOk(s) && s.up && (c.iface.Some? ==> c.iface.value < |s.store|)
    ensures var b := Bind(s, c);
      !PlaceCall(s, c, now).st.up <==>
        s.cfg.walk.AsWritten? && c.routedVia.None? && b.iface.Some? && Mixed(s, b.iface.value)
  {
    if c.routedVia.None? {
      var b := Bind(s, c);
      CheckFromSpec(s.store, s.registry, c.mod, c.func, c.ver);
      if b.iface.Some? { RouteUp(s, b, At(s.store, b.iface.value)); }
    }
  }

  lemma RouteUp(s: State, b: Call, i: Iface)
    requires IfaceOk(i, s.modules.Keys, s.fabs.Keys)
    ensures Route(s, b, i).NullModule? <==>
      s.cfg.walk.AsWritten? && i.locals != [] && exists id <- i.globals :: id !in s.modules
  {
    if i.locals != [] {
      WalkIdsSpec(s.modules, Candidates(s.cfg.walk, i), None);
      assert i.locals[0] in i.locals;
      assert i.globals == [] ==> Candidates(AsWritten, i) == [i.locals[0]];
    }
  }

  lemma {:induction false} DrainUp(s: State, order: seq<ActionId>, now: Time)
    requires RegistryOk(s) && CallsOk(s) && s.up
    ensures Drain(s, order, now).up <==> !DrainCrashes(s, order, None)
    decreases |order|
  {
    hide RegistryOk, CallsOk, PlaceCall;
    if order != [] {
      var a := order[0];
      assert forall k | 0 < k < |order| :: order[k] == order[1..][k - 1];
      if a in s.queue {
        var t := PlaceQueued(s, a, now).st;
        PlaceQueuedKeeps(s, a, now);
        PlaceQueuedUp(s, a, now);
        if t.up {
          DrainUp(t, order[1..], now);
          assert DrainCrashes(s, order, None) <==> DrainCrashes(t, order[1..], None);
        }
      } else {
        DrainUp(s, order[1..], now);
      }
    }
  }

  lemma PlaceQueuedUp(s: State, a: ActionId, now: Time)
    requires RegistryOk(s) && CallsOk(s) && s.up && a in s.queue
    ensures var t := PlaceQueued(s, a, now).st;
      && (!t.up <==> s.cfg.walk.AsWritten? && Stuck(s, a))
      && t.cfg == s.cfg && t.fabs == s.fabs && t.modules.Keys == s.modules.Keys
      && t.queue.Keys == s.queue.Keys
      && (forall b <- t.queue | b != a :: Stuck(t, b) == Stuck(s, b))
      && (Stuck(t, a) ==> Stuck(s, a))
  {
    hide PlaceCall;
    PlaceCallUp(s, s.queue[a], now);
    PlaceCallFrame(s, s.queue[a], now);
    PlaceCallKeeps(s, s.queue[a], now);
    PlaceCallOutcome(s, s.queue[a], now);
  }

  lemma CallUp(s: State, m: Msg, now: Time)
    requires RegistryOk(s) && s.up
    ensures ProcessCall(s, m, now).up <==> !CallCrashes(s, m, now)
  {
    hide PlaceCall, RegistryOk;
    var c := CallOf(m, now);
    if c.Some? { PlaceCallUp(s, c.value, now); }
  }

  // A caller's CALL brings the broker down exactly if it is well formed and the walk as written
  // meets an interface for it that is provided both here and elsewhere - by a fabric, that is, whose
  // identity no module has.
  lemma MixedProvidersCrash(s: State, m: Msg, now: Time)
    requires RegistryOk(s) && s.up
    ensures !ProcessCall(s, m, now).up <==>
      && s.cfg.walk.AsWritten? && CallOf(m, now).Some?
      && var c := CallOf(m, now).value;
         var hit := CheckInterface(s, c.mod, c.func, c.ver);
         hit.Some? && At(s.store, hit.value).locals != [] && exists id <- At(s.store, hit.value).globals :: id !in s.modules
  {
    hide RegistryOk, ProcessCall;
    CallUp(s, m, now);
  }

  // ---------- replies ----------

  lemma LocalReplyUp(s: State, m: Msg, order: seq<ActionId>, now: Time)
    requires RegistryOk(s) && CallsOk(s) && s.up && m.actionid in s.queue
    ensures LocalReply(s, s.queue[m.actionid], m, order, now).up <==> !LocalReplyCrashes(s, m, order)
  {
    hide RegistryOk, CallsOk, Drain;
    var c := s.queue[m.actionid];
    var s2 := Finish(s, c, m);
    FinishKeeps(s, c, m);
    if m.identity in s2.modules && !s2.modules[m.identity].needRestart {
      var s3 := SetState(s2, m.identity, Idle);
      IdleKeeps(s2, m.identity);
      DrainUp(s3, order, now);
      assert s3.modules.Keys == s.modules.Keys;
      assert forall b :: Stuck(s3, b) <==> b != m.actionid && Stuck(s, b);
    }
  }

  lemma ExceptionUp(s: State, m: Msg, order: seq<ActionId>, now: Time)
    requires RegistryOk(s) && CallsOk(s) && s.up
    ensures ProcessException(s, m, order, now).up <==> !ExceptionCrashes(s, m, order)
  {
    hide RegistryOk, CallsOk, LocalReply, PlaceQueued, LocalReplyCrashes, Stuck;
    if m.actionid in s.queue {
      LocalReplyUp(s, m, order, now);
      PlaceQueuedUp(s, m.actionid, now);
    }
  }

  // ---------- interface lists and introductions ----------

  lemma CheckIsNamed(s: State, mod: string, func: string)
    ensures CheckInterface(s, mod, func, 0).Some? <==> Named(s, mod, func)
  {
    CheckFromSpec(s.store, s.registry, mod, func, 0);
  }

  lemma ProvideNames(s: State, mod: string, func: string, ver: U64, id: Id, asLocal: bool, mod': string, func': string)
    requires s.up && forall r <- s.registry :: r < |s.store|
    ensures var t := Provide(s, mod, func, ver, id, asLocal);
      && (t.up <==> ver != 0 || Named(s, mod, func))
      && (t.up ==> (Named(t, mod', func') <==> Named(s, mod', func') || (mod' == mod && func' == func)))
  {
    hide CheckFrom;
    CheckIsNamed(s, mod, func);
    CheckFromSpec(s.store, s.registry, mod, func, ver);
    var t := Provide(s, mod, func, ver, id, asLocal);
    var hit := CheckInterface(s, mod, func, ver);
    if hit.Some? {
      assert hit.value in s.registry;
      assert t.registry == s.registry;
      assert forall r <- s.registry :: At(t.store, r).mod == At(s.store, r).mod && At(t.store, r).func == At(s.store, r).func;
    } else if t.up {
      assert forall r <- s.registry :: r in t.registry && At(t.store, r) == At(s.store, r);
      assert |s.store| in t.registry;
      assert forall r <- t.registry :: r in s.registry || r == |s.store|;
    }
  }

  lemma {:induction false} MergeListUp(s: State, fab: Id, paths: seq<string>, mods: set<Id>, fabs: set<Id>)
    requires RegOk(s.store, s.registry, mods, fabs) && s.up && fab in fabs
    ensures MergeList(s, fab, paths).up <==> !ListCrashes(s, paths)
    decreases |paths|
  {
    hide Named, Provide, ListCrashes;
    if paths == [] {
      NoPaths(s);
    } else {
      match ParsePath(paths[0]) {
        case None =>
          MergeListUp(s, fab, paths[1..], mods, fabs);
          ListCrashesRest(s, s, paths);
        case Some((mod, func, ver)) =>
          var t := Provide(s, mod, func, ver, fab, false);
          ProvideKeepsRegOk(s, mod, func, ver, fab, false, mods, fabs);
          ProvideNames(s, mod, func, ver, fab, false, mod, func);
          if t.up {
            MergeListUp(t, fab, paths[1..], mods, fabs);
            forall mod', func' ensures Named(t, mod', func') <==> Named(s, mod', func') || PathNames(paths[0], mod', func') {
              ProvideNames(s, mod, func, ver, fab, false, mod', func');
            }
            ListCrashesRest(s, t, paths);
          } else {
            FirstPathCrashes(s, paths);
          }
      }
    }
  }

  lemma NoPaths(s: State)
    ensures !ListCrashes(s, [])
  {}

  lemma FirstPathCrashes(s: State, paths: seq<string>)
    requires paths != [] && ParsePath(paths[0]).Some? && ParsePath(paths[0]).value.2 == 0
    requires !Named(s, ParsePath(paths[0]).value.0, ParsePath(paths[0]).value.1)
    ensures ListCrashes(s, paths)
  {}

  // The first path is no obstacle: the list fails exactly if the rest does afterwards.
  lemma ListCrashesRest(s: State, t: State, paths: seq<string>)
    requires paths != []
    requires ParsePath(paths[0]).Some? ==> ParsePath(paths[0]).value.2 != 0 || Named(s, ParsePath(paths[0]).value.0, ParsePath(paths[0]).value.1)
    requires forall mod, func :: Named(t, mod, func) <==> Named(s, mod, func) || PathNames(paths[0], mod, func)
    ensures ListCrashes(s, paths) <==> ListCrashes(t, paths[1..])
  {
    hide Named;
    if ListCrashes(s, paths) {
      var k :| 0 <= k < |paths| && ParsePath(paths[k]).Some? && ParsePath(paths[k]).value.2 == 0
        && !Named(s, ParsePath(paths[k]).value.0, ParsePath(paths[k]).value.1)
        && forall j | 0 <= j < k :: !PathNames(paths[j], ParsePath(paths[k]).value.0, ParsePath(paths[k]).value.1);
      assert k > 0;
      assert paths[1..][k - 1] == paths[k];
      assert forall j | 0 <= j < k - 1 :: paths[1..][j] == paths[j + 1];
    }
    if ListCrashes(t, paths[1..]) {
      var k :| 0 <= k < |paths[1..]| && ParsePath(paths[1..][k]).Some? && ParsePath(paths[1..][k]).value.2 == 0
        && !Named(t, ParsePath(paths[1..][k]).value.0, ParsePath(paths[1..][k]).value.1)
        && forall j | 0 <= j < k :: !PathNames(paths[1..][j], ParsePath(paths[1..][k]).value.0, ParsePath(paths[1..][k]).value.1);
      assert paths[1..][k] == paths[k + 1];
      assert forall j | 0 < j < k + 1 :: paths[j] == paths[1..][j - 1];
    }
  }

  lemma {:induction false} ProvideAllUp(s: State, id: Id, name: string, versions: map<string, U64>, keys: seq<string>,
                                        mods: set<Id>, fabs: set<Id>)
    requires RegOk(s.store, s.registry, mods, fabs) && s.up && id in mods
    ensures ProvideAll(s, id, name, versions, keys).up <==>
      !exists k | 0 <= k < |keys| :: Unnamed(s, name, versions, keys[k])
    decreases |keys|
  {
    hide Named, Provide;
    if keys != [] {
      var key, rest := keys[0], keys[1..];
      assert forall k | 0 < k < |keys| :: keys[k] == rest[k - 1];
      assert forall k | 0 <= k < |rest| :: keys[k + 1] == rest[k];
      if key in versions {
        var t := Provide(s, name, key, versions[key], id, true);
        ProvideKeepsRegOk(s, name, key, versions[key], id, true, mods, fabs);
        ProvideNames(s, name, key, versions[key], id, true, name, key);
        if t.up {
          ProvideAllUp(t, id, name, versions, rest, mods, fabs);
          forall other ensures Unnamed(t, name, versions, other) <==> Unnamed(s, name, versions, other) {
            ProvideNames(s, name, key, versions[key], id, true, name, other);
          }
        } else {
          assert Unnamed(s, name, versions, keys[0]);
        }
      } else {
        ProvideAllUp(s, id, name, versions, rest, mods, fabs);
        assert !Unnamed(s, name, versions, keys[0]);
      }
    }
  }

  lemma FinishIntroduceUp(s: State, m: Msg, known: bool, keys: seq<string>)
    requires RegistryOk(s) && s.up
    ensures FinishIntroduce(s, m, known, keys).up <==> !IntroduceCrashes(s, m, known, keys)
  {
    hide ProvideAll, Named;
    match (BodyString(m.body, "name"), GetProvides(m.body)) {
      case (Some(name), Some(versions)) =>
        assert s.modules.Keys <= s.modules.Keys + {m.identity};
        ProvideAllUp(s, m.identity, name, versions, keys, s.modules.Keys + {m.identity}, s.fabs.Keys);
      case _ =>
    }
  }

  lemma IntroduceUp(s: State, m: Msg, known: bool, keys: seq<string>)
    requires RegistryOk(s) && s.up
    ensures ProcessIntroduce(s, m, known, keys).up <==> !IntroduceCrashes(s, m, known, keys)
  {
    hide FinishIntroduce, Unnamed;
    FinishIntroduceUp(AskPid(s, m), m, known, keys);
    SameGuard(s, AskPid(s, m), m, known, keys);
  }

  lemma SameGuard(s: State, t: State, m: Msg, known: bool, keys: seq<string>)
    requires t.store == s.store && t.registry == s.registry && t.cfg == s.cfg
    ensures IntroduceCrashes(t, m, known, keys) <==> IntroduceCrashes(s, m, known, keys)
  {
    match (BodyString(m.body, "name"), GetProvides(m.body)) {
      case (Some(name), Some(versions)) => SameNames(s, t, name, versions);
      case _ =>
    }
  }

  lemma SameNames(s: State, t: State, name: string, versions: map<string, U64>)
    requires t.store == s.store && t.registry == s.registry
    ensures forall key :: Unnamed(t, name, versions, key) <==> Unnamed(s, name, versions, key)
  {}

  lemma IfaceListUp(s: State, m: Msg)
    requires RegistryOk(s) && s.up
    ensures ProcessIfaceList(s, m).up <==> !IfaceListCrashes(s, m)
  {
    hide MergeList, ListCrashes;
    match GetIfaceList(m.body) {
      case None =>
      case Some(paths) =>
        if m.identity in s.fabs { MergeListUp(s, m.identity, paths, s.modules.Keys, s.fabs.Keys); }
    }
  }

  // ---------- every event ----------

  lemma CommandUp(s: State, verb: Verb, m: Msg, e: Event, now: Time)
    requires RegistryOk(s) && CallsOk(s) && s.up && e.Arrive?
    ensures ProcessCommand(s, verb, m, e, now).up <==> !CommandCrashes(s, verb, m, e, now)
  {
    hide RegistryOk, CallsOk, LocalReply, ProcessCall, ProcessException, ProcessIntroduce, ProcessIfaceList,
      LocalReplyCrashes, CallCrashes, ExceptionCrashes, IfaceListCrashes, IntroduceCrashes;
    match verb {
      case VCall => CallUp(s, m, now);
      case VResult =>
        if m.actionid in s.queue { LocalReplyUp(s, m, e.order, now); } else { IfaceListUp(s, m); }
      case VException => ExceptionUp(s, m, e.order, now);
      case VIntroduce => IntroduceUp(s, m, e.known, e.keys);
      case _ =>
    }
  }

  lemma {:induction false} SweepUp(s: State, order: seq<ActionId>, now: Time)
    ensures Sweep(s, order, now).up == s.up
    decreases |order|
  {
    if order != [] { SweepUp(SweepItem(s, order[0], now), order[1..], now); }
  }

  lemma {:induction false} PollUp(s: State, order: seq<Polled>)
    ensures Poll(s, order).up == s.up
    decreases |order|
  {
    if order != [] { PollUp(PollItem(s, order[0]), order[1..]); }
  }

  // The guards look at the fabrics' names only.
  lemma AliveMakesNoDifference(s: State, id: Id, verb: Verb, m: Msg, e: Event, now: Time)
    requires e.Arrive?
    ensures CommandCrashes(MarkAlive(s, id), verb, m, e, now) <==> CommandCrashes(s, verb, m, e, now)
  {
  }

  // An event brings the broker down exactly if its guard says so.
  lemma StepStaysUp(s: State, e: Event, now: Time)
    requires RegistryOk(s) && CallsOk(s) && s.up
    ensures Step(s, e, now).up <==> !Crashes(s, e, now)
  {
    hide ProcessCommand, CommandCrashes, Sweep, Poll;
    match e {
      case Arrive(local, identity, body, _, _, _) =>
        match Parse(local, identity, body) {
          case None =>
          case Some((verb, m)) =>
            var s1 := if local then s else MarkAlive(s, identity);
            assert s1.fabs.Keys == s.fabs.Keys;
            AliveMakesNoDifference(s, identity, verb, m, e, now);
            CommandUp(s1, verb, m, e, now);
        }
      case SweepTimer(order) => SweepUp(s, order, now);
      case PollTimer(order) => PollUp(s, order);
      case Beacon(_, _) =>
      case FromProcman(_, _) =>
    }
  }

  // ---------- runs ----------

  // No event of the run meets its guard.
  ghost predicate Guarded(cfg: Config, ticks: seq<Tick>) {
    ticks == [] ||
    var before, last := ticks[..|ticks| - 1], ticks[|ticks| - 1];
    Guarded(cfg, before) && !Crashes(Run(cfg, before), last.ev, last.now)
  }

  // The broker is up after a run exactly if no event of it met its guard.
  lemma {:induction false} RunStaysUp(cfg: Config, ticks: seq<Tick>)
    ensures Run(cfg, ticks).up <==> Guarded(cfg, ticks)
  {
    hide Crashes, Step;
    if ticks != [] {
      var before, last := ticks[..|ticks| - 1], ticks[|ticks| - 1];
      RunStaysUp(cfg, before);
      if Run(cfg, before).up {
        RunKeepsCalls(cfg, before);
        StepStaysUp(Run(cfg, before), last.ev, last.now);
      } else {
        DownStaysDown(Run(cfg, before), last);
      }
    }
  }

  lemma DownStaysDown(s: State, last: Tick)
    requires !s.up
    ensures !Step(s, last.ev, last.now).up
  {}
}
