/** Interface lists sent between fabrics: what one broker packs, the other unpacks, parses and merges. */
module Gossip {
  import opened Wrappers
  import opened Text
  import opened Messages
  import opened Tables
  import opened Steps
  import opened Registry
  import opened Heartbeat

  // The interfaces a broker announces: those with a local provider
  function Announced(store: seq<Iface>, registry: seq<Ref>): seq<Iface> {
    if registry == [] then []
    else
      var i := At(store, registry[0]);
      (if i.locals != [] then [i] else []) + Announced(store, registry[1..])
  }

  predicate Announceable(i: Iface) {
    PrintableName(i.mod) && PrintableName(i.func) && (i.ver < TWO31 || i.ver >= TWO64 - TWO31)
  }

  lemma {:induction false} AnnouncedSpec(store: seq<Iface>, registry: seq<Ref>)
    ensures forall i :: i in Announced(store, registry) <==> exists r <- registry :: At(store, r) == i && i.locals != []
  {
    if registry != [] {
      AnnouncedSpec(store, registry[1..]);
      assert registry == [registry[0]] + registry[1..];
    }
  }

  // Packing, unpacking and parsing give back exactly the announced interfaces, in order.
  lemma {:induction false} PathsSpec(store: seq<Iface>, registry: seq<Ref>)
    ensures var paths, ifs := LocalPaths(store, registry), Announced(store, registry);
      && |paths| == |ifs|
      && forall k | 0 <= k < |ifs| ::
           ParsePath(paths[k]) == Some((ifs[k].mod, ifs[k].func, ifs[k].ver)) <==> Announceable(ifs[k])
  {
    if registry != [] {
      var i := At(store, registry[0]);
      PathsSpec(store, registry[1..]);
      PathRoundTrip(i.mod, i.func, i.ver);
      var paths, ifs := LocalPaths(store, registry), Announced(store, registry);
      var rest, ifRest := LocalPaths(store, registry[1..]), Announced(store, registry[1..]);
      if i.locals != [] {
        assert paths[1..] == rest && ifs[1..] == ifRest;
        forall k | 0 <= k < |ifs|
          ensures ParsePath(paths[k]) == Some((ifs[k].mod, ifs[k].func, ifs[k].ver)) <==> Announceable(ifs[k])
        {
          if k > 0 { assert paths[k] == rest[k - 1] && ifs[k] == ifRest[k - 1]; }
        }
      } else {
        assert paths == rest && ifs == ifRest;
      }
    }
  }

  // ---------- merging ----------

  // The interface that a request (mod, func, ver) is bound to lists fab.
  ghost predicate Offered(s: State, fab: Id, mod: string, func: string, ver: U64) {
    match CheckInterface(s, mod, func, ver)
    case Some(r) => r < |s.store| && Serves(s.store[r], mod, func, ver) && r in s.registry && fab in s.store[r].globals
    case None => false
  }

  lemma {:induction false} CheckStable(before: seq<Iface>, after: seq<Iface>, registry: seq<Ref>, more: seq<Ref>,
                                       mod: string, func: string, ver: U64)
    requires IfacesKept(before, after) && forall r <- registry :: r < |before|
    requires CheckFrom(before, registry, mod, func, ver).Some?
    ensures CheckFrom(after, registry + more, mod, func, ver) == CheckFrom(before, registry, mod, func, ver)
  {
    assert registry[0] in registry && forall q <- registry[1..] :: q in registry;
    assert (registry + more)[1..] == registry[1..] + more;
    if !Serves(At(before, registry[0]), mod, func, ver) {
      CheckStable(before, after, registry[1..], more, mod, func, ver);
    }
  }

  lemma ProvideOffers(s: State, mod: string, func: string, ver: U64, fab: Id)
    requires RegistryOk(s) && fab in s.fabs
    ensures var t := Provide(s, mod, func, ver, fab, false);
      t.up && s.up ==> Offered(t, fab, mod, func, ver)
  {
    ProvideKeepsRegOk(s, mod, func, ver, fab, false, s.modules.Keys, s.fabs.Keys);
    CheckFromSpec(s.store, s.registry, mod, func, ver);
    var t := Provide(s, mod, func, ver, fab, false);
    match CheckInterface(s, mod, func, ver) {
      case Some(r) =>
        assert r in s.registry;
        CheckStable(s.store, t.store, s.registry, [], mod, func, ver);
        assert s.registry + [] == s.registry;
      case None =>
        if ver != 0 { NewIsFound(s, t, mod, func, ver); }
    }
  }

  lemma {:induction false} CheckMiss(before: seq<Iface>, after: seq<Iface>, registry: seq<Ref>, r: Ref,
                                     mod: string, func: string, ver: U64)
    requires IfacesKept(before, after) && forall q <- registry :: q < |before|
    requires CheckFrom(before, registry, mod, func, ver).None?
    requires Serves(At(after, r), mod, func, ver)
    ensures CheckFrom(after, registry + [r], mod, func, ver) == Some(r)
  {
    if registry != [] {
      assert registry[0] in registry && forall q <- registry[1..] :: q in registry;
      assert (registry + [r])[1..] == registry[1..] + [r];
      CheckMiss(before, after, registry[1..], r, mod, func, ver);
    }
  }

  lemma NewIsFound(s: State, t: State, mod: string, func: string, ver: U64)
    requires RegistryOk(s) && CheckInterface(s, mod, func, ver).None? && IfacesKept(s.store, t.store)
    requires |t.store| == |s.store| + 1 && t.registry == s.registry + [|s.store|]
    requires Serves(t.store[|s.store|], mod, func, ver)
    ensures CheckInterface(t, mod, func, ver) == Some(|s.store|)
  {
    CheckMiss(s.store, t.store, s.registry, |s.store|, mod, func, ver);
  }

  lemma ProvideKeepsOffer(s: State, mod: string, func: string, ver: U64, fab: Id,
                          mod': string, func': string, ver': U64)
    requires RegistryOk(s) && fab in s.fabs && Offered(s, fab, mod', func', ver')
    ensures Offered(Provide(s, mod, func, ver, fab, false), fab, mod', func', ver')
  {
    ProvideKeepsRegOk(s, mod, func, ver, fab, false, s.modules.Keys, s.fabs.Keys);
    var t := Provide(s, mod, func, ver, fab, false);
    var more := if |t.registry| > |s.registry| then [|s.store|] else [];
    assert t.registry == s.registry + more;
    CheckStable(s.store, t.store, s.registry, more, mod', func', ver');
  }

  ghost predicate PathOffered(s: State, fab: Id, path: string) {
    match ParsePath(path)
    case None => true
    case Some((mod, func, ver)) => Offered(s, fab, mod, func, ver)
  }

  // After merging, the receiver offers everything on the list through the sender.
  lemma {:induction false} MergeOffers(s: State, fab: Id, paths: seq<string>, done: set<string>)
    requires RegistryOk(s) && fab in s.fabs && s.up
    requires forall p <- done :: PathOffered(s, fab, p)
    ensures var t := MergeList(s, fab, paths);
      t.up ==> RegistryOk(t) && t.fabs == s.fabs && forall p | p in done || p in paths :: PathOffered(t, fab, p)
    decreases |paths|
  {
    if paths != [] {
      assert forall p :: p in paths <==> p == paths[0] || p in paths[1..];
      match ParsePath(paths[0]) {
        case None =>
          MergeOffers(s, fab, paths[1..], done + {paths[0]});
        case Some((mod, func, ver)) =>
          var t := Provide(s, mod, func, ver, fab, false);
          ProvideKeepsRegOk(s, mod, func, ver, fab, false, s.modules.Keys, s.fabs.Keys);
          if t.up {
            ProvideOffers(s, mod, func, ver, fab);
            forall p <- done ensures PathOffered(t, fab, p) {
              match ParsePath(p) {
                case None =>
                case Some((m, f, v)) => ProvideKeepsOffer(s, mod, func, ver, fab, m, f, v);
              }
            }
            MergeOffers(t, fab, paths[1..], done + {paths[0]});
          }
      }
    }
  }

  // Fabric fab has become a provider, behind those there were; nothing else in the lists has changed.
  ghost predicate OnlyGains(s: State, t: State, fab: Id) {
    && t.modules == s.modules && t.queue == s.queue && t.sent == s.sent && t.commands == s.commands
    && |s.store| <= |t.store| && s.registry <= t.registry
    && (forall r | 0 <= r < |s.store| ::
         t.store[r] == s.store[r] || (fab !in s.store[r].globals && t.store[r] == s.store[r].(globals := s.store[r].globals + [fab])))
    && (forall r | |s.store| <= r < |t.store| :: t.store[r].locals == [] && t.store[r].globals == [fab])
  }

  lemma {:induction false} MergeOnlyGains(s: State, fab: Id, paths: seq<string>)
    requires RegistryOk(s) && fab in s.fabs
    ensures OnlyGains(s, MergeList(s, fab, paths), fab)
    decreases |paths|
  {
    hide CheckInterface;
    if paths != [] && s.up {
      match ParsePath(paths[0]) {
        case None => MergeOnlyGains(s, fab, paths[1..]);
        case Some((mod, func, ver)) =>
          var t := Provide(s, mod, func, ver, fab, false);
          ProvideKeepsRegOk(s, mod, func, ver, fab, false, s.modules.Keys, s.fabs.Keys);
          assert OnlyGains(s, t, fab);
          MergeOnlyGains(t, fab, paths[1..]);
      }
    }
  }

  // Merging what is already offered changes nothing.
  lemma {:induction false} MergeAgain(s: State, fab: Id, paths: seq<string>)
    requires forall p <- paths :: PathOffered(s, fab, p)
    ensures MergeList(s, fab, paths) == s
    decreases |paths|
  {
    if paths != [] && s.up {
      assert paths[0] in paths;
      match ParsePath(paths[0]) {
        case None =>
        case Some((mod, func, ver)) =>
          var r := CheckInterface(s, mod, func, ver).value;
          assert AppendId(s.store[r], fab, false) == s.store[r];
          assert Provide(s, mod, func, ver, fab, false) == s;
      }
      MergeAgain(s, fab, paths[1..]);
    }
  }

  // The merge fails only on a version that reads back as 0.
  lemma {:induction false} MergeStaysUp(s: State, fab: Id, paths: seq<string>)
    requires s.up
    requires forall p <- paths :: ParsePath(p).Some? ==> ParsePath(p).value.2 != 0
    ensures MergeList(s, fab, paths).up
    decreases |paths|
  {
    if paths != [] {
      assert paths[0] in paths;
      match ParsePath(paths[0]) {
        case None => MergeStaysUp(s, fab, paths[1..]);
        case Some((mod, func, ver)) => MergeStaysUp(Provide(s, mod, func, ver, fab, false), fab, paths[1..]);
      }
    }
  }

  // A list nobody asked for in the queue is merged, once its sender is marked alive.
  lemma ListIsMerged(r: State, fab: Id, paths: seq<string>, a: ActionId, e: Event, now: Time)
    requires r.up && fab in r.fabs && |a| >= 5 && a !in r.queue
    requires e.Arrive? && !e.local && e.identity == fab && e.body == IfaceListResponse(paths, a)
    ensures Step(r, e, now) == MergeList(MarkAlive(r, fab), fab, paths)
  {
    ReadIfaceListResponse(paths, a);
    var m := Msg(fab, false, a, e.body);
    assert Parse(e.local, e.identity, e.body) == Some((VResult, m));
    var r1 := MarkAlive(r, fab);
    assert ProcessCommand(r1, VResult, m, e, now) == ProcessIfaceList(r1, m);
  }

  lemma AnnouncedParse(s: State)
    requires RegistryOk(s)
    requires forall i <- Announced(s.store, s.registry) :: Announceable(i)
    ensures forall p <- LocalPaths(s.store, s.registry) :: ParsePath(p).Some? && ParsePath(p).value.2 != 0
    ensures forall ref <- s.registry | At(s.store, ref).locals != [] ::
      exists p <- LocalPaths(s.store, s.registry) ::
        ParsePath(p) == Some((At(s.store, ref).mod, At(s.store, ref).func, At(s.store, ref).ver))
  {
    var paths, ifs := LocalPaths(s.store, s.registry), Announced(s.store, s.registry);
    PathsSpec(s.store, s.registry);
    AnnouncedSpec(s.store, s.registry);
    forall p <- paths ensures ParsePath(p).Some? && ParsePath(p).value.2 != 0 {
      var k :| 0 <= k < |paths| && paths[k] == p;
      assert ifs[k] in ifs;
      var ref :| ref in s.registry && At(s.store, ref) == ifs[k];
    }
    forall ref <- s.registry | At(s.store, ref).locals != []
      ensures exists p <- paths ::
        ParsePath(p) == Some((At(s.store, ref).mod, At(s.store, ref).func, At(s.store, ref).ver))
    {
      var i := At(s.store, ref);
      assert i in ifs;
      var k :| 0 <= k < |ifs| && ifs[k] == i;
      assert paths[k] in paths;
    }
  }

  // What a broker tells the fabric that asks for its list: the paths of the announced interfaces, in order
  lemma {:induction false} PathsOfAnnounced(store: seq<Iface>, registry: seq<Ref>)
    ensures var paths, ifs := LocalPaths(store, registry), Announced(store, registry);
      |paths| == |ifs| && forall k | 0 <= k < |ifs| :: paths[k] == FormatPath(ifs[k].mod, ifs[k].func, ifs[k].ver)
  {
    hide FormatPath;
    if registry != [] {
      PathsOfAnnounced(store, registry[1..]);
    }
  }

  // A known fabric that asks for the list gets one message, under the id of its request, and that says
  // which interfaces have a local provider.
  lemma ListIsSent(s: State, e: Event, m: Msg, now: Time)
    requires s.up && e.Arrive? && Parse(e.local, e.identity, e.body) == Some((VRequest, m))
    requires BodyString(e.body, "command") == Some("IfaceList")
    ensures var t := Step(s, e, now);
      if e.identity !in s.fabs then t == s
      else
        && |t.sent| == |s.sent| + 1 && t == s.(fabs := t.fabs, sent := s.sent + [t.sent[|s.sent|]])
        && var x := t.sent[|s.sent|];
           && x.to == e.identity && x.reached && x.kind.IfaceListOut? && x.actionid == m.actionid
           && CheckCommand(x.body) == Some(VResult)
           && (|m.actionid| >= 5 ==> CheckActionid(x.body) == Some(m.actionid))
           && match GetIfaceList(x.body)
              case None => false
              case Some(paths) => (
                var ifs := Announced(s.store, s.registry);
                |paths| == |ifs| && forall k | 0 <= k < |ifs| :: paths[k] == FormatPath(ifs[k].mod, ifs[k].func, ifs[k].ver))
  {
    hide IfaceListResponse, FormatPath, BodyString;
    PathsOfAnnounced(s.store, s.registry);
    ReadIfaceListResponse(LocalPaths(s.store, s.registry), m.actionid);
  }

  // t, which was r, has for every interface with a local provider at s one of at least that version listing fab,
  // and otherwise is as it was.
  ghost predicate Learned(s: State, r: State, t: State, fab: Id) {
    && t.up && RegistryOk(t) && OnlyGains(r, t, fab)
    && forall ref <- s.registry | At(s.store, ref).locals != [] ::
         var i := At(s.store, ref); Offered(t, fab, i.mod, i.func, i.ver)
  }

  // e brings this body from fabric id.
  predicate Brings(e: Event, id: Id, body: Value) { e.Arrive? && !e.local && e.identity == id && e.body == body }

  // The list a broker sends is merged by the fabric that receives it.
  lemma SentListIsMerged(s: State, r: State, fab: Id, paths: seq<string>, a: ActionId, e: Event, now: Time)
    requires RegistryOk(s) && RegistryOk(r) && r.up && fab in r.fabs && |a| >= 5 && a !in r.queue
    requires forall i <- Announced(s.store, s.registry) :: Announceable(i)
    requires e.Arrive? && !e.local && e.identity == fab
    requires paths == LocalPaths(s.store, s.registry) && e.body == IfaceListResponse(paths, a)
    ensures Learned(s, r, Step(r, e, now), fab) && Step(Step(r, e, now), e, now) == Step(r, e, now)
  {
    hide Step, MergeList, IfaceListResponse, LocalPaths;
    AnnouncedParse(s);
    ListIsMerged(r, fab, paths, a, e, now);
    var r1 := MarkAlive(r, fab);
    assert r1.fabs.Keys == r.fabs.Keys;
    var t := MergeList(r1, fab, paths);
    MergeStaysUp(r1, fab, paths);
    MergeOffers(r1, fab, paths, {});
    MergeOnlyGains(r1, fab, paths);
    MergeListKeepsRegOk(r1, fab, paths, r1.modules.Keys, r1.fabs.Keys);
    forall ref <- s.registry | At(s.store, ref).locals != []
      ensures var i := At(s.store, ref); Offered(t, fab, i.mod, i.func, i.ver)
    {
      var i := At(s.store, ref);
      var p :| p in paths && ParsePath(p) == Some((i.mod, i.func, i.ver));
      assert PathOffered(t, fab, p);
    }
    MergeAgain(t, fab, paths);
    assert MarkAlive(t, fab) == t;
    ListIsMerged(t, fab, paths, a, e, now);
  }

  // One gossip exchange. Fabric me asks fabric fab, which is in state s, for its list, and gets one message.
  // If every announced name and version can be printed, then once me, in state r, has received it, it has for
  // every interface that has a local provider at s one of at least that version listing fab; and receiving the
  // same message again changes nothing.
  lemma Exchange(s: State, r: State, me: Id, fab: Id, a: ActionId, asked: Event, now: Time) returns (x: Sent)
    requires RegistryOk(s) && RegistryOk(r) && s.up && r.up && me in s.fabs && fab in r.fabs && |a| >= 5 && a !in r.queue
    requires forall i <- Announced(s.store, s.registry) :: Announceable(i)
    requires Brings(asked, me, IfaceListRequest(a))
    ensures Step(s, asked, now).sent == s.sent + [x] && x.to == me && x.reached
    ensures forall told, later: Time | Brings(told, fab, x.body) ::
      Learned(s, r, Step(r, told, later), fab) && Step(Step(r, told, later), told, later) == Step(r, told, later)
  {
    hide RegistryOk, Learned, IfaceListRequest, IfaceListResponse, LocalPaths, Announceable;
    var paths := LocalPaths(s.store, s.registry);
    ReadIfaceListRequest(a);
    x := Sent(me, true, IfaceListOut, a, IfaceListResponse(paths, a));
    assert Step(s, asked, now).sent == s.sent + [x];
    hide Step;
    forall told, later: Time | Brings(told, fab, x.body)
      ensures Learned(s, r, Step(r, told, later), fab) && Step(Step(r, told, later), told, later) == Step(r, told, later)
    {
      SentListIsMerged(s, r, fab, paths, a, told, later);
    }
  }

  // s answers what me asks in one message, to me.
  ghost predicate AnswersWith(s: State, asked: Event, now: Time, me: Id, x: Sent) {
    Step(s, asked, now).sent == s.sent + [x] && x.to == me && x.reached
  }

  // Once r has received the message from fab, it has learned what s announces.
  ghost predicate Teaches(s: State, r: State, fab: Id, x: Sent) {
    forall told, later: Time | Brings(told, fab, x.body) :: Learned(s, r, Step(r, told, later), fab)
  }

  // Whenever that question of me reaches s, s answers it with a message that teaches r.
  ghost predicate StartsExchange(s: State, r: State, me: Id, fab: Id, question: Value) {
    forall asked, now: Time | Brings(asked, me, question) :: IsTaught(s, r, me, fab, asked, now)
  }

  ghost predicate IsTaught(s: State, r: State, me: Id, fab: Id, asked: Event, now: Time) {
    exists x :: AnswersWith(s, asked, now, me, x) && Teaches(s, r, fab, x)
  }

  lemma Exchanges(s: State, r: State, me: Id, fab: Id, a: ActionId)
    requires RegistryOk(s) && RegistryOk(r) && s.up && r.up && me in s.fabs && fab in r.fabs && |a| >= 5 && a !in r.queue
    requires forall i <- Announced(s.store, s.registry) :: Announceable(i)
    ensures StartsExchange(s, r, me, fab, IfaceListRequest(a))
  {
    hide RegistryOk, Announceable, Learned, Step, IfaceListRequest, Brings;
    forall asked, now: Time | Brings(asked, me, IfaceListRequest(a))
      ensures IsTaught(s, r, me, fab, asked, now)
    {
      var x := Exchange(s, r, me, fab, a, asked, now);
      assert AnswersWith(s, asked, now, me, x) && Teaches(s, r, fab, x);
    }
  }

  lemma {:induction false} PollChanges(s: State, order: seq<Polled>)
    ensures Poll(s, order).up == s.up && Poll(s, order).queue == s.queue
    decreases |order|
  {
    if order != [] { PollChanges(PollItem(s, order[0]), order[1..]); }
  }

  // From the poll on: the heartbeat poll of a broker asks every fabric that it knows and that is alive; and that
  // question starts an exchange.
  lemma PollToList(s: State, r: State, me: Id, order: seq<Polled>, q: Polled, now: Time)
    requires RegistryOk(s) && RegistryOk(r) && s.up && r.up && me in s.fabs && IsAlive(r.fabs, q.fab)
    requires forall i <- Announced(s.store, s.registry) :: Announceable(i)
    requires NoDup(Fabs(order)) && q in order && |q.uuid| >= 5 && q.uuid !in r.queue
    ensures var r1 := Step(r, PollTimer(order), now);
      exists ask :: r.sent <= r1.sent && ask in r1.sent[|r.sent|..] && ask.to == q.fab && ask.reached
        && StartsExchange(s, r1, me, q.fab, ask.body)
  {
    hide RegistryOk, Announceable, StartsExchange, Poll;
    var r1, ask := Step(r, PollTimer(order), now), AskOf(q);
    IsAsked(r, order, q);
    FabsHas(order, q);
    PollSpec(r, order);
    PollKeepsRegistry(r, order);
    PollChanges(r, order);
    Exchanges(s, r1, me, q.fab, q.uuid);
    assert ask in r1.sent[|r.sent|..] && ask.body == IfaceListRequest(q.uuid);
  }
}
