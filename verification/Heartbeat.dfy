/** The poll of the peer fabrics as a failure detector over event traces. */
module Heartbeat {
  import opened Messages
  import opened Tables
  import opened Steps
  import opened Registry

  // f sent a message that parses.
  predicate HeardFrom(e: Event, f: Id) {
    e.Arrive? && !e.local && e.identity == f && Parse(e.local, e.identity, e.body).Some?
  }

  // zhash_foreach visits every entry once.
  ghost predicate Enumerates(order: seq<Id>, keys: set<Id>) {
    NoDup(order) && forall x :: x in order <==> x in keys
  }

  function Fabs(order: seq<Polled>): seq<Id> {
    if order == [] then [] else [order[0].fab] + Fabs(order[1..])
  }

  ghost predicate PollsVisitAll(cfg: Config, ticks: seq<Tick>) {
    ticks == [] ||
    var before, last := ticks[..|ticks| - 1], ticks[|ticks| - 1];
    && PollsVisitAll(cfg, before)
    && (last.ev.PollTimer? ==> Enumerates(Fabs(last.ev.polled), Run(cfg, before).fabs.Keys))
  }

  // Since the last poll, f was discovered or sent a message that parses.
  predicate Heard(cfg: Config, ticks: seq<Tick>, f: Id) {
    ticks != [] &&
    var before, last := ticks[..|ticks| - 1], ticks[|ticks| - 1];
    if last.ev.PollTimer? then false
    else
      || HeardFrom(last.ev, f)
      || (last.ev.Beacon? && last.ev.identity == f && f !in Run(cfg, before).fabs && last.ev.connected)
      || Heard(cfg, before, f)
  }

  // ---------- which handlers touch the fabric table ----------

  lemma CommandKeepsFabs(s: State, verb: Verb, m: Msg, e: Event, now: Time)
    requires RegistryOk(s) && e.Arrive?
    ensures ProcessCommand(s, verb, m, e, now).fabs == s.fabs
  {
    match verb {
      case VResult => if m.actionid in s.queue { ReplyFrame(s, m, e.order, now); } else { IfaceListKeepsRegistry(s, m); }
      case VException => if m.actionid in s.queue { ReplyFrame(s, m, e.order, now); }
      case VCall => CallKeepsRegistry(s, m, now);
      case VIntroduce => IntroduceKeepsRegistry(s, m, e.known, e.keys);
      case _ =>
    }
  }

  lemma MessageFabs(s: State, e: Event, now: Time)
    requires RegistryOk(s) && e.Arrive?
    ensures var t := OnMessage(s, e, now);
      && t.fabs.Keys == s.fabs.Keys
      && forall f <- s.fabs :: t.fabs[f] == (s.fabs[f] || HeardFrom(e, f))
  {
    match Parse(e.local, e.identity, e.body) {
      case None =>
      case Some((verb, m)) =>
        var s1 := if e.local then s else MarkAlive(s, e.identity);
        assert s1.fabs.Keys == s.fabs.Keys;
        CommandKeepsFabs(s1, verb, m, e, now);
    }
  }

  lemma {:induction false} SweepKeepsFabs(s: State, order: seq<ActionId>, now: Time)
    ensures Sweep(s, order, now).fabs == s.fabs
    decreases |order|
  {
    if order != [] { SweepKeepsFabs(SweepItem(s, order[0], now), order[1..], now); }
  }

  lemma FirstOfFabs(order: seq<Polled>)
    requires order != []
    ensures var fab, rest := order[0].fab, Fabs(order[1..]);
      && (forall f :: f in Fabs(order) <==> f == fab || f in rest)
      && (NoDup(Fabs(order)) ==> NoDup(rest) && fab !in rest)
  {
    var all, fab, rest := Fabs(order), order[0].fab, Fabs(order[1..]);
    assert all[0] == fab && all[1..] == rest;
    if NoDup(all) {
      forall i | 0 <= i < |rest| ensures rest[i] != fab { assert all[i + 1] == rest[i]; }
      forall i, j | 0 <= i < j < |rest| ensures rest[i] != rest[j] {
        assert all[i + 1] == rest[i] && all[j + 1] == rest[j];
      }
    }
  }

  lemma PollItemSpec(s: State, q: Polled)
    ensures var t := PollItem(s, q);
      && (forall f :: f in t.fabs <==> f in s.fabs && (f == q.fab ==> s.fabs[f]))
      && (forall f <- t.fabs :: t.fabs[f] == (f != q.fab && s.fabs[f]))
  {
    hide IfaceRemove;
    assert IfaceRemove(s, q.fab).fabs == s.fabs by { RemoveKeepsFabs(s, q.fab); }
  }

  lemma RemoveKeepsFabs(s: State, id: Id)
    ensures IfaceRemove(s, id).fabs == s.fabs
  {}

  lemma {:induction false} PollSpec(s: State, order: seq<Polled>)
    requires NoDup(Fabs(order))
    ensures var t := Poll(s, order);
      && (forall f :: f in t.fabs <==> f in s.fabs && (f in Fabs(order) ==> s.fabs[f]))
      && (forall f <- t.fabs :: t.fabs[f] == (f !in Fabs(order) && s.fabs[f]))
    decreases |order|
  {
    hide PollItem, NoDup;
    if order != [] {
      FirstOfFabs(order);
      PollItemSpec(s, order[0]);
      PollSpec(PollItem(s, order[0]), order[1..]);
    }
  }

  // ---------- the detector ----------

  // The alive flag of a known fabric says whether it was heard since the last poll.
  lemma {:induction false} AliveMeansHeard(cfg: Config, ticks: seq<Tick>, f: Id)
    requires Run(cfg, ticks).up && PollsVisitAll(cfg, ticks) && f in Run(cfg, ticks).fabs
    ensures Run(cfg, ticks).fabs[f] == Heard(cfg, ticks, f)
  {
    assert ticks != [];
    var before, last := ticks[..|ticks| - 1], ticks[|ticks| - 1];
    var s, t := Run(cfg, before), Run(cfg, ticks);
    assert s.up;
    RunKeepsRegistry(cfg, before);
    match last.ev {
      case Arrive(_, _, _, _, _, _) => MessageFabs(s, last.ev, last.now);
      case SweepTimer(order) => SweepKeepsFabs(s, order, last.now);
      case PollTimer(order) => PollSpec(s, order);
      case Beacon(_, _) =>
      case FromProcman(_, _) =>
    }
    if f in s.fabs { AliveMeansHeard(cfg, before, f); }
  }

  // A poll drops exactly the fabrics not heard since the previous poll or their discovery,
  // and a dropped fabric is gone from every interface.
  lemma DroppedIffSilent(cfg: Config, ticks: seq<Tick>, poll: Tick, f: Id)
    requires var all := ticks + [poll]; Run(cfg, all).up && PollsVisitAll(cfg, all)
    requires poll.ev.PollTimer? && f in Run(cfg, ticks).fabs
    ensures f !in Run(cfg, ticks + [poll]).fabs <==> !Heard(cfg, ticks, f)
    ensures var t := Run(cfg, ticks + [poll]);
      f !in t.fabs ==> forall r <- t.registry :: f !in At(t.store, r).globals
  {
    var all := ticks + [poll];
    assert all[..|all| - 1] == ticks && Run(cfg, ticks).up;
    AliveMeansHeard(cfg, ticks, f);
    PollSpec(Run(cfg, ticks), poll.ev.polled);
    RunKeepsRegistry(cfg, all);
  }

  // ---------- the questions ----------

  predicate IsAlive(fabs: map<Id, bool>, f: Id) { f in fabs && fabs[f] }

  // What fabric q.fab is asked under the action id made for it
  function AskOf(q: Polled): Sent { Sent(q.fab, true, Ask, q.uuid, IfaceListRequest(q.uuid)) }

  // The questions to the fabrics that are alive before the poll, in the order of the walk
  function Asks(fabs: map<Id, bool>, order: seq<Polled>): seq<Sent> {
    if order == [] then []
    else (if IsAlive(fabs, order[0].fab) then [AskOf(order[0])] else []) + Asks(fabs, order[1..])
  }

  lemma {:induction false} AsksSame(fabs: map<Id, bool>, fabs': map<Id, bool>, order: seq<Polled>)
    requires forall f <- Fabs(order) :: IsAlive(fabs, f) == IsAlive(fabs', f)
    ensures Asks(fabs, order) == Asks(fabs', order)
  {
    if order != [] {
      FirstOfFabs(order);
      AsksSame(fabs, fabs', order[1..]);
    }
  }

  lemma PollItemAsks(s: State, q: Polled)
    ensures PollItem(s, q).sent == s.sent + if IsAlive(s.fabs, q.fab) then [AskOf(q)] else []
  {
    hide IfaceListRequest;
  }

  // A poll asks every fabric it comes to that is alive, once, under its own id, and no other.
  lemma {:induction false} PollAsks(s: State, order: seq<Polled>)
    requires NoDup(Fabs(order))
    ensures Poll(s, order).sent == s.sent + Asks(s.fabs, order)
    decreases |order|
  {
    hide PollItem, NoDup, AskOf, IsAlive;
    if order != [] {
      var t := PollItem(s, order[0]);
      FirstOfFabs(order);
      PollItemAsks(s, order[0]);
      PollItemSpec(s, order[0]);
      PollAsks(t, order[1..]);
      assert forall f <- Fabs(order[1..]) :: IsAlive(t.fabs, f) == IsAlive(s.fabs, f) by { StayAlive(s, t, order); }
      AsksSame(t.fabs, s.fabs, order[1..]);
    }
  }

  lemma StayAlive(s: State, t: State, order: seq<Polled>)
    requires order != [] && NoDup(Fabs(order))
    requires forall f :: f in t.fabs <==> f in s.fabs && (f == order[0].fab ==> s.fabs[f])
    requires forall f <- t.fabs :: t.fabs[f] == (f != order[0].fab && s.fabs[f])
    ensures forall f <- Fabs(order[1..]) :: IsAlive(t.fabs, f) == IsAlive(s.fabs, f)
  {
    FirstOfFabs(order);
  }

  lemma {:induction false} AsksSpec(fabs: map<Id, bool>, order: seq<Polled>, x: Sent)
    ensures x in Asks(fabs, order) <==> exists q <- order :: IsAlive(fabs, q.fab) && x == AskOf(q)
  {
    if order != [] {
      assert order == [order[0]] + order[1..];
      AsksSpec(fabs, order[1..], x);
    }
  }

  lemma IsAsked(s: State, order: seq<Polled>, q: Polled)
    requires NoDup(Fabs(order)) && q in order
    ensures var t := Poll(s, order); s.sent <= t.sent && (AskOf(q) in t.sent[|s.sent|..] <==> IsAlive(s.fabs, q.fab))
  {
    hide Poll, AskOf;
    PollAsks(s, order);
    AsksSpec(s.fabs, order, AskOf(q));
    forall p <- order | AskOf(p) == AskOf(q) ensures p.fab == q.fab { OwnFab(p); OwnFab(q); }
  }

  lemma PollVisits(cfg: Config, ticks: seq<Tick>, poll: Tick)
    requires var all := ticks + [poll]; Run(cfg, all).up && PollsVisitAll(cfg, all)
    requires poll.ev.PollTimer?
    ensures Run(cfg, ticks).up && PollsVisitAll(cfg, ticks)
    ensures Run(cfg, ticks + [poll]) == Poll(Run(cfg, ticks), poll.ev.polled)
    ensures NoDup(Fabs(poll.ev.polled)) && forall f <- Fabs(poll.ev.polled) :: f in Run(cfg, ticks).fabs
  {
    hide Poll, NoDup, Fabs, OnMessage, Sweep, OnBeacon, OnProcman;
    var all := ticks + [poll];
    assert all[..|all| - 1] == ticks;
  }

  // A poll asks exactly the fabrics heard since the previous poll or their discovery.
  lemma AskedIffHeard(cfg: Config, ticks: seq<Tick>, poll: Tick, q: Polled)
    requires var all := ticks + [poll]; Run(cfg, all).up && PollsVisitAll(cfg, all)
    requires poll.ev.PollTimer? && q in poll.ev.polled
    ensures var s, t := Run(cfg, ticks), Run(cfg, ticks + [poll]);
      s.sent <= t.sent && (AskOf(q) in t.sent[|s.sent|..] <==> Heard(cfg, ticks, q.fab))
  {
    hide Run, PollsVisitAll, Poll, AskOf, Heard, NoDup, Fabs;
    PollVisits(cfg, ticks, poll);
    IsAsked(Run(cfg, ticks), poll.ev.polled, q);
    FabsHas(poll.ev.polled, q);
    AliveMeansHeard(cfg, ticks, q.fab);
  }

  lemma OwnFab(q: Polled)
    ensures AskOf(q).to == q.fab
  {}

  lemma {:induction false} FabsHas(order: seq<Polled>, q: Polled)
    requires q in order
    ensures q.fab in Fabs(order)
  {
    if order[0] != q { FabsHas(order[1..], q); }
  }

  // Outside polls nothing drops a fabric, and only the beacon of a peer that can be reached adds one.
  lemma OnlyPollsDrop(cfg: Config, ticks: seq<Tick>, last: Tick, f: Id)
    requires Run(cfg, ticks).up && !last.ev.PollTimer?
    ensures f in Run(cfg, ticks + [last]).fabs <==>
      f in Run(cfg, ticks).fabs || (last.ev.Beacon? && last.ev.identity == f && last.ev.connected)
  {
    var all := ticks + [last];
    assert all[..|all| - 1] == ticks;
    var s := Run(cfg, ticks);
    RunKeepsRegistry(cfg, ticks);
    match last.ev {
      case Arrive(_, _, _, _, _, _) => MessageFabs(s, last.ev, last.now);
      case SweepTimer(order) => SweepKeepsFabs(s, order, last.now);
      case Beacon(_, _) =>
      case FromProcman(_, _) =>
    }
  }

  // Nothing between two polls concerns f.
  ghost predicate Silent(ticks: seq<Tick>, f: Id) {
    forall k | 0 <= k < |ticks| ::
      !ticks[k].ev.PollTimer? && !HeardFrom(ticks[k].ev, f) && !(ticks[k].ev.Beacon? && ticks[k].ev.identity == f)
  }

  lemma {:induction false} StillUnheard(cfg: Config, first: seq<Tick>, between: seq<Tick>, f: Id)
    requires first != [] && first[|first| - 1].ev.PollTimer? && Silent(between, f)
    ensures !Heard(cfg, first + between, f)
  {
    if between == [] {
      assert first + between == first;
    } else {
      var shorter := between[..|between| - 1];
      assert (first + between)[..|first + between| - 1] == first + shorter;
      StillUnheard(cfg, first, shorter, f);
    }
  }

  // A silent fabric is gone by the second poll.
  lemma SilentIsGoneBySecondPoll(cfg: Config, first: seq<Tick>, between: seq<Tick>, poll: Tick, f: Id)
    requires var all := first + between + [poll]; Run(cfg, all).up && PollsVisitAll(cfg, all)
    requires first != [] && first[|first| - 1].ev.PollTimer? && Silent(between, f) && poll.ev.PollTimer?
    ensures var t := Run(cfg, first + between + [poll]);
      f !in t.fabs && forall r <- t.registry :: f !in At(t.store, r).globals
  {
    var ticks := first + between;
    var all := ticks + [poll];
    assert all[..|all| - 1] == ticks;
    if f in Run(cfg, ticks).fabs {
      StillUnheard(cfg, first, between, f);
      DroppedIffSilent(cfg, ticks, poll, f);
    } else {
      PollSpec(Run(cfg, ticks), poll.ev.polled);
      RunKeepsRegistry(cfg, all);
    }
  }
}
