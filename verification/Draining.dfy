/** The pass over the queue after a module has answered, and the walk placeCall makes over
    candidate modules: as it is written and as its comment intends it. */
module Draining {
  import opened Wrappers
  import opened Tables
  import opened Steps
  import opened Registry
  import opened Queue

  // Nothing more can be done for c now: no candidate of its interface is idle, and if the
  // interface has no local provider then c has no fabric to go to.
  ghost predicate Waits(s: State, c: Call) {
    c.routedVia.None? ==>
      && c.iface.Some?
      && (forall id <- Candidates(s.cfg.walk, At(s.store, c.iface.value)) :: id in s.modules && !s.modules[id].state.Idle?)
      && (At(s.store, c.iface.value).locals == [] ==> !(c.local && c.globals != []))
  }

  ghost predicate Busier(before: map<Id, Module>, after: map<Id, Module>) {
    && after.Keys == before.Keys
    && (forall id <- before :: after[id].state.Idle? ==> before[id].state.Idle?)
  }

  lemma PlaceCallWaits(s: State, c: Call, now: Time)
    requires c.iface.Some?
    ensures var p := PlaceCall(s, c, now);
      && Busier(s.modules, p.st.modules)
      && (p.st.up ==> Waits(s, p.call))
  {
    if c.routedVia.None? {
      assert Bind(s, c) == c;
      var i := At(s.store, c.iface.value);
      WalkIdsSpec(s.modules, Candidates(s.cfg.walk, i), None);
      match Route(s, c, i) {
        case To(id) => assert PlaceCall(s, c, now) == Dispatch(s, c, id, now);
        case Nowhere => assert PlaceCall(s, c, now) == Placed(s, c, 0);
        case NullModule => assert PlaceCall(s, c, now) == Placed(Crash(s), c, 0);
      }
    }
  }

  lemma WaitsOn(s: State, t: State, c: Call)
    requires Waits(s, c) && t.cfg == s.cfg && t.store == s.store && Busier(s.modules, t.modules)
    ensures Waits(t, c)
  {
  }

  ghost predicate AllWait(s: State, some: set<ActionId>) {
    forall a <- some :: a in s.queue ==> Waits(s, s.queue[a])
  }

  lemma PlacedWaits(s: State, a: ActionId, done: set<ActionId>, now: Time)
    requires RegistryOk(s) && CallsOk(s) && a in s.queue && AllWait(s, done)
    ensures var t := PlaceQueued(s, a, now).st;
      t.queue.Keys == s.queue.Keys && (t.up ==> AllWait(t, done + {a}))
  {
    hide PlaceCall, Waits;
    PlaceQueuedKeeps(s, a, now);
    PlaceCallFrame(s, s.queue[a], now);
    PlaceCallWaits(s, s.queue[a], now);
    var p, t := PlaceCall(s, s.queue[a], now), PlaceQueued(s, a, now).st;
    if t.up {
      forall b <- done + {a} | b in t.queue ensures Waits(t, t.queue[b]) {
        if b == a { WaitsOn(p.st, t, t.queue[b]); } else { WaitsOn(s, t, t.queue[b]); }
      }
    }
  }

  // After the pass, unless the walk hit a null pointer, every call that is still unrouted
  // could not have been placed.
  lemma {:induction false} DrainIsComplete(s: State, order: seq<ActionId>, done: set<ActionId>, now: Time)
    requires RegistryOk(s) && CallsOk(s)
    requires forall a <- s.queue :: a in done || a in order
    requires AllWait(s, done)
    ensures var t := Drain(s, order, now);
      t.up ==> AllWait(t, t.queue.Keys)
    decreases |order|
  {
    hide Waits, PlaceCall, RegistryOk, CallsOk;
    if order != [] && s.up {
      var a := order[0];
      assert forall b :: b in order ==> b == a || b in order[1..];
      if a in s.queue {
        PlaceQueuedKeeps(s, a, now);
        PlacedWaits(s, a, done, now);
        var t := PlaceQueued(s, a, now).st;
        if t.up { DrainIsComplete(t, order[1..], done + {a}, now); }
      } else {
        DrainIsComplete(s, order[1..], done, now);
      }
    }
  }

  // With the intended walk the pass never fails.
  lemma {:induction false} IntendedDrainStaysUp(s: State, order: seq<ActionId>, now: Time)
    requires RegistryOk(s) && CallsOk(s) && s.cfg.walk.Intended?
    ensures Drain(s, order, now).up == s.up
    decreases |order|
  {
    if order != [] && s.up {
      if order[0] in s.queue {
        var c := s.queue[order[0]];
        PlaceQueuedKeeps(s, order[0], now);
        PlaceCallFrame(s, c, now);
        PlaceCallOutcome(s, c, now);
        var i := At(s.store, c.iface.value);
        WalkIdsSpec(s.modules, Candidates(s.cfg.walk, i), None);
        assert IfaceOk(i, s.modules.Keys, s.fabs.Keys);
        IntendedDrainStaysUp(PlaceQueued(s, order[0], now).st, order[1..], now);
      } else {
        IntendedDrainStaysUp(s, order[1..], now);
      }
    }
  }

  // A local provider of the interface is idle.
  predicate HasIdle(s: State, r: Ref) { exists id <- At(s.store, r).locals :: IsIdle(s, id) }

  // The interface that a request like c would be bound to now
  function Offer(s: State, c: Call): Option<Ref> { CheckInterface(s, c.mod, c.func, c.ver) }

  // A module that serves c is idle.
  predicate Servable(s: State, c: Call) { Offer(s, c).Some? && HasIdle(s, Offer(s, c).value) }

  // c is not routed although a module that serves it is idle.
  predicate Overlooked(s: State, c: Call) { c.routedVia.None? && Servable(s, c) }

  // Afterwards no unrouted call has an idle local provider in the interface it was bound to when it
  // arrived. Whether that is the interface that serves it now is another matter.
  lemma NoIdleProviderIsLeft(s: State, order: seq<ActionId>, now: Time)
    requires RegistryOk(s) && CallsOk(s) && s.up && s.cfg.walk.Intended?
    requires forall a <- s.queue :: a in order
    ensures var t := Drain(s, order, now);
      t.up && t.queue.Keys == s.queue.Keys && forall a <- t.queue | t.queue[a].routedVia.None? ::
        t.queue[a].iface.Some? && !HasIdle(t, t.queue[a].iface.value)
  {
    IntendedDrainStaysUp(s, order, now);
    DrainIsComplete(s, order, {}, now);
    DrainFrame(s, order, now);
  }

  // ---------- the walk as written ----------

  // When the two walks part ways, for an interface whose local providers are registered and whose
  // fabrics are not modules. As written: any global provider makes the walk dereference null, and
  // otherwise only the first local provider is looked at. So the walk as written does what is
  // intended - find an idle provider whenever there is one - exactly when the interface has no
  // global provider and its first local provider is idle or none is.
  lemma WalkAsWritten(modules: map<Id, Module>, i: Iface)
    requires i.locals != []
    requires forall id <- i.locals :: id in modules
    requires forall id <- i.globals :: id !in modules
    ensures var written := WalkIds(modules, Candidates(AsWritten, i), None);
      var intended := WalkIds(modules, Candidates(Intended, i), None);
      && (written.Fault? <==> i.globals != [])
      && (i.globals == [] ==> (written.found.Some? <==> modules[i.locals[0]].state.Idle?))
      && intended.Walked?
      && (intended.found.Some? <==> exists id <- i.locals :: modules[id].state.Idle?)
      && (written.Walked? && (written.found.Some? <==> intended.found.Some?) <==>
            i.globals == [] && (modules[i.locals[0]].state.Idle? || forall id <- i.locals :: !modules[id].state.Idle?))
  {
    WalkIdsSpec(modules, Candidates(Intended, i), None);
    var first := i.locals[0];
    assert Candidates(AsWritten, i)[1..] == i.globals;
    var found := if modules[first].state.Idle? then Some(first) else None;
    if i.globals == [] {
      assert WalkIds(modules, i.globals, found) == Walked(found);
    } else {
      assert WalkIds(modules, i.globals, found) == Fault;
    }
    assert first in i.locals;
  }

  lemma OnlyProvider(s: State, c: Call, r: Ref, id: Id, now: Time)
    requires c.routedVia.None? && c.iface == Some(r) && id in s.modules
    requires At(s.store, r).locals == [id] && At(s.store, r).globals == []
    ensures PlaceCall(s, c, now) == if s.modules[id].state.Idle? then Dispatch(s, c, id, now) else Placed(s, c, 0)
  {
    assert Candidates(s.cfg.walk, At(s.store, r)) == [id];
    assert [id][1..] == [];
    assert WalkIds(s.modules, [id], None) == Walked(if s.modules[id].state.Idle? then Some(id) else None);
  }

  // c waits for module id, the only provider of its interface.
  predicate WaitsFor(s: State, c: Call, id: Id) {
    && c.routedVia.None? && c.iface.Some?
    && At(s.store, c.iface.value).locals == [id] && At(s.store, c.iface.value).globals == []
  }

  // Placing c could give it to id.
  predicate MayTake(s: State, c: Call, id: Id) {
    && c.routedVia.None? && c.iface.Some?
    && var i := At(s.store, c.iface.value);
       id in Candidates(s.cfg.walk, i) || (i.locals == [] && c.globals != [] && NextGlobal(c.globals) == id)
  }

  lemma NotTaken(s: State, b: ActionId, id: Id, now: Time)
    requires RegistryOk(s) && CallsOk(s) && b in s.queue && id in s.modules && !MayTake(s, s.queue[b], id)
    ensures var t := PlaceQueued(s, b, now).st; id in t.modules && t.modules[id] == s.modules[id]
  {
    var c := s.queue[b];
    assert CallOk(c, s.store);
    if c.routedVia.None? {
      assert Bind(s, c) == c;
      WalkIdsSpec(s.modules, Candidates(s.cfg.walk, At(s.store, c.iface.value)), None);
    }
  }

  // As long as the module is not idle, nothing happens to the calls that wait for it.
  lemma {:induction false} BusyProvider(s: State, order: seq<ActionId>, a: ActionId, id: Id, now: Time)
    requires RegistryOk(s) && CallsOk(s) && a in s.queue && WaitsFor(s, s.queue[a], id) && id in s.modules && !IsIdle(s, id)
    ensures var t := Drain(s, order, now); a in t.queue && t.queue[a] == s.queue[a]
    decreases |order|
  {
    hide RegistryOk, CallsOk, PlaceCall;
    if order != [] && s.up {
      var b := order[0];
      if b in s.queue {
        PlaceQueuedKeeps(s, b, now);
        PlaceCallFrame(s, s.queue[b], now);
        StaysBusy(s, b, now);
        if b == a { OnlyProvider(s, s.queue[a], s.queue[a].iface.value, id, now); }
        BusyProvider(PlaceQueued(s, b, now).st, order[1..], a, id, now);
      } else {
        BusyProvider(s, order[1..], a, id, now);
      }
    }
  }

  lemma StaysBusy(s: State, b: ActionId, now: Time)
    requires CallsOk(s) && b in s.queue
    ensures Busier(s.modules, PlaceQueued(s, b, now).st.modules)
  {
    assert CallOk(s.queue[b], s.store);
    PlaceCallWaits(s, s.queue[b], now);
  }

  lemma {:induction false} RoutedStays(s: State, order: seq<ActionId>, a: ActionId, now: Time)
    requires a in s.queue && s.queue[a].routedVia.Some?
    ensures a in Drain(s, order, now).queue && Drain(s, order, now).queue[a] == s.queue[a]
    decreases |order|
  {
    hide PlaceCall;
    if order != [] && s.up {
      if order[0] in s.queue {
        PlaceCallFrame(s, s.queue[order[0]], now);
        PlaceCallOutcome(s, s.queue[order[0]], now);
        RoutedStays(PlaceQueued(s, order[0], now).st, order[1..], a, now);
      } else {
        RoutedStays(s, order[1..], a, now);
      }
    }
  }

  lemma PlacedOn(s: State, a: ActionId, id: Id, now: Time)
    requires a in s.queue && WaitsFor(s, s.queue[a], id) && IsIdle(s, id)
    ensures var t := PlaceQueued(s, a, now).st;
      && t.queue == s.queue[a := t.queue[a]] && t.queue[a].routedVia == Some(id)
      && id in t.modules && !IsIdle(t, id) && t.cfg == s.cfg && t.store == s.store
  {
    OnlyProvider(s, s.queue[a], s.queue[a].iface.value, id, now);
  }

  // Of the calls that wait for one idle module the pass places the one that the hash walk comes to first,
  // and every other goes on waiting, in whatever order they were received.
  lemma {:induction false} HashOrderDecides(s: State, order: seq<ActionId>, k: nat, id: Id, now: Time)
    requires RegistryOk(s) && CallsOk(s) && IsIdle(s, id) && Drain(s, order, now).up && NoDup(order)
    requires k < |order| && order[k] in s.queue && WaitsFor(s, s.queue[order[k]], id)
    requires forall j | 0 <= j < k && order[j] in s.queue :: !MayTake(s, s.queue[order[j]], id)
    ensures var t := Drain(s, order, now);
      && order[k] in t.queue && t.queue[order[k]].routedVia == Some(id)
      && forall a <- s.queue | a != order[k] && WaitsFor(s, s.queue[a], id) :: a in t.queue && t.queue[a] == s.queue[a]
    decreases k
  {
    hide RegistryOk, CallsOk, PlaceQueued, MayTake;
    var b, rest := order[0], order[1..];
    assert NoDup(rest) && forall j | 0 <= j < |rest| :: rest[j] == order[j + 1] != b;
    if b !in s.queue {
      HashOrderDecides(s, rest, k - 1, id, now);
    } else {
      var t := PlaceQueued(s, b, now).st;
      PlaceQueuedKeeps(s, b, now);
      if k == 0 {
        PlacedOn(s, b, id, now);
        RoutedStays(t, rest, b, now);
        forall a <- s.queue | a != b && WaitsFor(s, s.queue[a], id) ensures a in Drain(t, rest, now).queue && Drain(t, rest, now).queue[a] == s.queue[a] {
          BusyProvider(t, rest, a, id, now);
        }
      } else {
        OthersStay(s, b, id, now);
        HashOrderDecides(t, rest, k - 1, id, now);
      }
    }
  }

  lemma OthersStay(s: State, b: ActionId, id: Id, now: Time)
    requires RegistryOk(s) && CallsOk(s) && b in s.queue && IsIdle(s, id) && !MayTake(s, s.queue[b], id)
    ensures !WaitsFor(s, s.queue[b], id)
    ensures var t := PlaceQueued(s, b, now).st;
      && IsIdle(t, id) && t.queue == s.queue[b := t.queue[b]]
      && (forall c :: MayTake(t, c, id) == MayTake(s, c, id)) && (forall c :: WaitsFor(t, c, id) == WaitsFor(s, c, id))
  {
    NotTaken(s, b, id, now);
    PlaceCallFrame(s, s.queue[b], now);
  }
}
