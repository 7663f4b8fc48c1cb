/** The reply guarantee: a ledger of calls, answers and discarded calls that balances over every
    run, and the time within which a call is answered. */
module Ledger {
  import opened Wrappers
  import opened Text
  import opened Messages
  import opened Tables
  import opened Steps
  import opened Registry
  import opened Queue
  import opened InFlight

  // ---------- the ledger ----------

  // The message in e is a CALL with this action id from this identity.
  predicate IsCall(e: Event, a: ActionId, caller: Id) {
    e.Arrive? &&
    match Parse(e.local, e.identity, e.body)
    case None => false
    case Some((verb, m)) => verb.VCall? && m.actionid == a && m.identity == caller
  }

  // The message in e is a CALL with this action id.
  predicate IsCallFor(e: Event, a: ActionId) { e.Arrive? && IsCall(e, a, e.identity) }

  function Calls(ticks: seq<Tick>, a: ActionId, caller: Id): nat {
    if ticks == [] then 0
    else Calls(ticks[..|ticks| - 1], a, caller) + if IsCall(ticks[|ticks| - 1].ev, a, caller) then 1 else 0
  }

  // Answers handed to send_message
  function Answers(sent: seq<Sent>, a: ActionId, caller: Id): nat {
    if sent == [] then 0
    else
      var e := sent[|sent| - 1];
      Answers(sent[..|sent| - 1], a, caller) + if e.kind.Answer? && e.actionid == a && e.to == caller then 1 else 0
  }

  function Dropped(dropped: seq<Drop>, a: ActionId, caller: Id): nat {
    if dropped == [] then 0
    else
      var d := dropped[|dropped| - 1];
      Dropped(dropped[..|dropped| - 1], a, caller) + if d.actionid == a && d.caller == caller then 1 else 0
  }

  function Pending(queue: map<ActionId, Call>, a: ActionId, caller: Id): nat {
    if a in queue && queue[a].identity == caller then 1 else 0
  }

  function Balance(s: State, a: ActionId, caller: Id): nat {
    Answers(s.sent, a, caller) + Pending(s.queue, a, caller) + Dropped(s.dropped, a, caller)
  }

  // How often a call with this id was handed to a module, or (relayed) to another fabric
  function HandOuts(sent: seq<Sent>, a: ActionId, relayed: bool): nat {
    if sent == [] then 0
    else
      var e := sent[|sent| - 1];
      HandOuts(sent[..|sent| - 1], a, relayed)
      + if e.kind.CallOut? && e.kind.relayed == relayed && e.actionid == a then 1 else 0
  }

  function Stamp(c: Call, relayed: bool): U64 { if relayed then c.outTs else c.procTs }

  lemma HandedPlus(sent: seq<Sent>, e: Sent, a: ActionId, relayed: bool)
    ensures HandOuts(sent + [e], a, relayed) ==
      HandOuts(sent, a, relayed) + if e.kind.CallOut? && e.kind.relayed == relayed && e.actionid == a then 1 else 0
  {
    assert (sent + [e])[..|sent|] == sent;
  }

  lemma AnswersPlus(sent: seq<Sent>, e: Sent, a: ActionId, caller: Id)
    ensures Answers(sent + [e], a, caller) ==
      Answers(sent, a, caller) + if e.kind.Answer? && e.actionid == a && e.to == caller then 1 else 0
  {
    assert (sent + [e])[..|sent|] == sent;
  }

  lemma DroppedPlus(dropped: seq<Drop>, d: Drop, a: ActionId, caller: Id)
    ensures Dropped(dropped + [d], a, caller) ==
      Dropped(dropped, a, caller) + if d.actionid == a && d.caller == caller then 1 else 0
  {
    assert (dropped + [d])[..|dropped|] == dropped;
  }

  // ---------- how queued calls change ----------

  // Within one handler a queued call keeps its caller and arrival time and is at most handed out.
  ghost predicate CallEvolves(c: Call, d: Call, now: Time) {
    && d.identity == c.identity && d.actionid == c.actionid && d.inTs == c.inTs && d.local == c.local
    && (forall relayed: bool ::
         Stamp(d, relayed) == Stamp(c, relayed) || (Stamp(c, relayed) == 0 && Stamp(d, relayed) == now))
  }

  ghost predicate QueueEvolves(s: State, t: State, now: Time) {
    forall a <- t.queue :: a in s.queue && CallEvolves(s.queue[a], t.queue[a], now)
  }

  // A call that stays queued is handed out exactly when it is stamped; none is that is not queued.
  ghost predicate HandsOver(s: State, t: State, now: Time, a: ActionId, relayed: bool) {
    var before, after := HandOuts(s.sent, a, relayed), HandOuts(t.sent, a, relayed);
    if a !in s.queue then after == before
    else if a !in t.queue then true
    else
      || (after == before && Stamp(t.queue[a], relayed) == Stamp(s.queue[a], relayed))
      || (after == before + 1 && Stamp(s.queue[a], relayed) == 0 && Stamp(t.queue[a], relayed) == now)
  }

  // What a handler that received no CALL does to the ledger
  ghost predicate Settled(s: State, t: State, now: Time, a: ActionId, caller: Id) {
    && Balance(t, a, caller) == Balance(s, a, caller) && QueueEvolves(s, t, now)
    && forall relayed: bool :: HandsOver(s, t, now, a, relayed)
  }

  lemma SettledTwice(s: State, t: State, u: State, now: Time, a: ActionId, caller: Id)
    requires Settled(s, t, now, a, caller) && Settled(t, u, now, a, caller)
    ensures Settled(s, u, now, a, caller)
  {
    forall b <- u.queue ensures b in s.queue && CallEvolves(s.queue[b], u.queue[b], now) {
      assert b in t.queue && CallEvolves(t.queue[b], u.queue[b], now) && CallEvolves(s.queue[b], t.queue[b], now);
    }
    forall relayed: bool ensures HandsOver(s, u, now, a, relayed) {
      assert HandsOver(s, t, now, a, relayed) && HandsOver(t, u, now, a, relayed);
    }
  }

  lemma SameLedger(s: State, t: State, now: Time, a: ActionId, caller: Id)
    requires t.queue == s.queue && t.sent == s.sent && t.dropped == s.dropped
    ensures Settled(s, t, now, a, caller)
  {}

  lemma SaidMore(s: State, t: State, e: Sent, now: Time, a: ActionId, caller: Id)
    requires t.queue == s.queue && t.sent == s.sent + [e] && t.dropped == s.dropped
    requires !e.kind.Answer? && !e.kind.CallOut?
    ensures Settled(s, t, now, a, caller)
  {
    AnswersPlus(s.sent, e, a, caller);
    forall relayed: bool ensures HandsOver(s, t, now, a, relayed) { HandedPlus(s.sent, e, a, relayed); }
  }

  // ---------- placing calls ----------

  ghost predicate NotStamped(c: Call) { c.procTs == 0 && c.outTs == 0 }

  // Placing a call leaves it alone, or sends it once and stamps it.
  ghost predicate SaysOnce(s: State, c: Call, p: Placed, now: Time) {
    || (p.st.sent == s.sent && p.call.procTs == c.procTs && p.call.outTs == c.outTs)
    || (&& |p.st.sent| > |s.sent| && p.st.sent == s.sent + [p.st.sent[|s.sent|]]
        && NotStamped(c)
        && var x := p.st.sent[|s.sent|];
           && x.kind.CallOut? && x.actionid == c.actionid
           && Stamp(p.call, x.kind.relayed) == now && Stamp(p.call, !x.kind.relayed) == 0)
  }

  lemma OutcomeSaysOnce(s: State, c: Call, p: Placed, now: Time)
    requires Outcome(s, c, p, now) && NotStamped(c)
    ensures SaysOnce(s, c, p, now) && p.call.identity == c.identity && p.call.actionid == c.actionid
      && p.call.inTs == c.inTs && p.call.local == c.local
  {
    hide CheckInterface;
    var b := Bind(s, c);
    if id :| Handed(s, b, p, id, now) {
    } else if id :| Relayed(s, b, p, id, now) {
    } else {
      assert p.st.sent == s.sent && p.call == b;
    }
  }

  lemma PlaceCallSaysOnce(s: State, c: Call, now: Time)
    requires c.routedVia.None? ==> NotStamped(c)
    ensures var p := PlaceCall(s, c, now);
      SaysOnce(s, c, p, now) && p.call.identity == c.identity && p.call.actionid == c.actionid
      && p.call.inTs == c.inTs && p.call.local == c.local
  {
    hide PlaceCall, Outcome;
    PlaceCallOutcome(s, c, now);
    if c.routedVia.None? { OutcomeSaysOnce(s, c, PlaceCall(s, c, now), now); }
  }

  // What a placed call adds to the log
  lemma SaidLedger(s: State, c: Call, p: Placed, now: Time, a: ActionId, caller: Id, relayed: bool)
    requires SaysOnce(s, c, p, now)
    ensures Stamp(p.call, relayed) == Stamp(c, relayed) || (Stamp(c, relayed) == 0 && Stamp(p.call, relayed) == now)
    ensures Answers(p.st.sent, a, caller) == Answers(s.sent, a, caller)
    ensures HandOuts(p.st.sent, a, relayed) == HandOuts(s.sent, a, relayed)
      + if a == c.actionid && Stamp(p.call, relayed) != Stamp(c, relayed) then 1 else 0
  {
    if p.st.sent != s.sent {
      var x := p.st.sent[|s.sent|];
      AnswersPlus(s.sent, x, a, caller);
      HandedPlus(s.sent, x, a, relayed);
    }
  }

  lemma PlaceCallLedger(s: State, c: Call, now: Time, a: ActionId, caller: Id)
    requires c.routedVia.None? ==> NotStamped(c)
    ensures var p := PlaceCall(s, c, now);
      && CallEvolves(c, p.call, now)
      && Answers(p.st.sent, a, caller) == Answers(s.sent, a, caller)
      && p.st.queue == s.queue && p.st.dropped == s.dropped
      && (forall relayed: bool ::
           HandOuts(p.st.sent, a, relayed) == HandOuts(s.sent, a, relayed)
             + if a == c.actionid && Stamp(p.call, relayed) != Stamp(c, relayed) then 1 else 0)
  {
    hide PlaceCall, SaysOnce, Answers, HandOuts;
    PlaceCallSaysOnce(s, c, now);
    PlaceCallFrame(s, c, now);
    var p := PlaceCall(s, c, now);
    SaidLedger(s, c, p, now, a, caller, true);
    SaidLedger(s, c, p, now, a, caller, false);
  }

  lemma PlaceQueuedLedger(s: State, b: ActionId, now: Time, a: ActionId, caller: Id)
    requires RegistryOk(s) && CallsOk(s) && b in s.queue
    ensures Settled(s, PlaceQueued(s, b, now).st, now, a, caller)
    ensures PlaceQueued(s, b, now).st.dropped == s.dropped
  {
    hide PlaceCall, RegistryOk, Answers, Dropped, HandOuts;
    PlaceCallLedger(s, s.queue[b], now, a, caller);
  }

  lemma {:induction false} DrainLedger(s: State, order: seq<ActionId>, now: Time, a: ActionId, caller: Id)
    requires RegistryOk(s) && CallsOk(s)
    ensures Settled(s, Drain(s, order, now), now, a, caller) && Drain(s, order, now).dropped == s.dropped
    decreases |order|
  {
    hide Settled, RegistryOk, CallsOk, PlaceQueued;
    SameLedger(s, s, now, a, caller);
    if order != [] && s.up {
      if order[0] in s.queue {
        var t := PlaceQueued(s, order[0], now).st;
        PlaceQueuedKeeps(s, order[0], now);
        PlaceQueuedLedger(s, order[0], now, a, caller);
        DrainLedger(t, order[1..], now, a, caller);
        SettledTwice(s, t, Drain(t, order[1..], now), now, a, caller);
      } else {
        DrainLedger(s, order[1..], now, a, caller);
      }
    }
  }

  // ---------- replies ----------

  lemma ReleaseLedger(s: State, id: Id, order: seq<ActionId>, now: Time, a: ActionId, caller: Id)
    requires RegistryOk(s) && CallsOk(s)
    ensures Settled(s, Release(s, id, order, now), now, a, caller)
    ensures Release(s, id, order, now).dropped == s.dropped
  {
    hide Settled, Drain;
    if id in s.modules && !s.modules[id].needRestart {
      var s1 := SetState(s, id, Idle);
      assert s1.modules.Keys == s.modules.Keys;
      SameLedger(s, s1, now, a, caller);
      DrainLedger(s1, order, now, a, caller);
      SettledTwice(s, s1, Drain(s1, order, now), now, a, caller);
    } else {
      SameLedger(s, Release(s, id, order, now), now, a, caller);
    }
  }

  // An entry answered, or discarded
  lemma Answered(s: State, t: State, b: ActionId, e: Sent, now: Time, a: ActionId, caller: Id)
    requires b in s.queue && t.queue == s.queue - {b} && t.dropped == s.dropped
    requires t.sent == s.sent + [e] && e.kind.Answer? && e.actionid == b && e.to == s.queue[b].identity
    ensures Settled(s, t, now, a, caller)
  {
    AnswersPlus(s.sent, e, a, caller);
    forall relayed: bool ensures HandsOver(s, t, now, a, relayed) { HandedPlus(s.sent, e, a, relayed); }
  }

  lemma Discarded(s: State, t: State, b: ActionId, why: Why, now: Time, a: ActionId, caller: Id)
    requires b in s.queue && t.queue == s.queue - {b} && t.sent == s.sent
    requires t.dropped == s.dropped + [Drop(b, s.queue[b].identity, why)]
    ensures Settled(s, t, now, a, caller)
  {
    DroppedPlus(s.dropped, Drop(b, s.queue[b].identity, why), a, caller);
  }

  lemma FinishLedger(s: State, c: Call, m: Msg, now: Time, a: ActionId, caller: Id)
    requires m.actionid in s.queue && c == s.queue[m.actionid]
    ensures Settled(s, Finish(s, c, m), now, a, caller)
    ensures forall d <- Finish(s, c, m).dropped ::
      d in s.dropped || (d == Drop(m.actionid, c.identity, FabricGone) && !c.local && c.identity !in s.fabs)
  {
    var t := Finish(s, c, m);
    if c.local || c.identity in s.fabs { Answered(s, t, m.actionid, t.sent[|s.sent|], now, a, caller); }
    else { Discarded(s, t, m.actionid, FabricGone, now, a, caller); }
  }

  lemma FinishKeepsCalls(s: State, c: Call, m: Msg)
    requires RegistryOk(s) && CallsOk(s) && m.actionid in s.queue && c == s.queue[m.actionid]
    ensures RegistryOk(Finish(s, c, m)) && CallsOk(Finish(s, c, m))
  {}

  lemma LocalReplyLedger(s: State, c: Call, m: Msg, order: seq<ActionId>, now: Time, a: ActionId, caller: Id)
    requires RegistryOk(s) && CallsOk(s) && m.actionid in s.queue && c == s.queue[m.actionid]
    ensures Settled(s, LocalReply(s, c, m, order, now), now, a, caller)
    ensures forall d <- LocalReply(s, c, m, order, now).dropped ::
      d in s.dropped || (d == Drop(m.actionid, c.identity, FabricGone) && !c.local && c.identity !in s.fabs)
  {
    hide Settled, RegistryOk, CallsOk, Release, Finish;
    var s1 := Finish(s, c, m);
    FinishLedger(s, c, m, now, a, caller);
    FinishKeepsCalls(s, c, m);
    ReleaseLedger(s1, m.identity, order, now, a, caller);
    SettledTwice(s, s1, Release(s1, m.identity, order, now), now, a, caller);
  }

  lemma FabricReplyLedger(s: State, c: Call, m: Msg, now: Time, a: ActionId, caller: Id)
    requires m.actionid in s.queue && c == s.queue[m.actionid]
    ensures Settled(s, FabricReply(s, c, m), now, a, caller)
    ensures c.local ==> FabricReply(s, c, m).dropped == s.dropped
  {
    var t := FabricReply(s, c, m);
    if c.local { Answered(s, t, m.actionid, t.sent[|s.sent|], now, a, caller); }
    else { Discarded(s, t, m.actionid, FabricToFabric, now, a, caller); }
  }

  lemma ResultLedger(s: State, m: Msg, order: seq<ActionId>, now: Time, a: ActionId, caller: Id)
    requires RegistryOk(s) && CallsOk(s) && m.actionid in s.queue
    ensures Settled(s, ProcessResult(s, m, order, now), now, a, caller)
  {
    var c := s.queue[m.actionid];
    if m.local { LocalReplyLedger(s, c, m, order, now, a, caller); }
    else { FabricReplyLedger(s, c, m, now, a, caller); }
  }

  lemma ExceptionLedger(s: State, m: Msg, order: seq<ActionId>, now: Time, a: ActionId, caller: Id)
    requires RegistryOk(s) && CallsOk(s) && m.actionid in s.queue
    ensures Settled(s, ProcessException(s, m, order, now), now, a, caller)
  {
    var c := s.queue[m.actionid];
    if m.local { LocalReplyLedger(s, c, m, order, now, a, caller); }
    else {
      FabricReplyLedger(s, c, m, now, a, caller);
      PlaceQueuedLedger(s, m.actionid, now, a, caller);
    }
  }

  // A call as it enters the queue
  ghost predicate Newly(c: Call, identity: Id, local: bool, now: Time) {
    && c.identity == identity && c.local == local && c.inTs == now
    && (forall relayed: bool :: Stamp(c, relayed) == 0 || Stamp(c, relayed) == now)
  }

  ghost predicate HandedAsStamped(s: State, sent: seq<Sent>, c: Call, a: ActionId, relayed: bool) {
    HandOuts(sent, a, relayed) == HandOuts(s.sent, a, relayed) + if Stamp(c, relayed) != 0 then 1 else 0
  }

  // A CALL enters the ledger exactly once: answered, queued or (a taken id) discarded.
  ghost predicate Entered(s: State, t: State, m: Msg, now: Time, a: ActionId, caller: Id) {
    && Balance(t, a, caller) == Balance(s, a, caller) + (if m.actionid == a && m.identity == caller then 1 else 0)
    && (forall b <- t.queue :: (b in s.queue && CallEvolves(s.queue[b], t.queue[b], now))
         || (b == m.actionid && b !in s.queue && Newly(t.queue[b], m.identity, m.local, now)))
    && (forall relayed: bool ::
         if a != m.actionid then HandsOver(s, t, now, a, relayed)
         else a !in s.queue && a in t.queue ==> HandedAsStamped(s, t.sent, t.queue[a], a, relayed))
  }

  // What placing the new call c leaves for Admit
  ghost predicate PlacedNewly(s: State, m: Msg, p: Placed, now: Time, a: ActionId, caller: Id) {
    && p.st.queue == s.queue && p.st.dropped == s.dropped
    && Answers(p.st.sent, a, caller) == Answers(s.sent, a, caller)
    && p.call.actionid == m.actionid && Newly(p.call, m.identity, m.local, now)
    && (forall relayed: bool ::
         if a == m.actionid then HandedAsStamped(s, p.st.sent, p.call, a, relayed)
         else HandOuts(p.st.sent, a, relayed) == HandOuts(s.sent, a, relayed))
  }

  lemma RefuseLedger(s: State, m: Msg, p: Placed, r: Reason, now: Time, a: ActionId, caller: Id)
    requires PlacedNewly(s, m, p, now, a, caller)
    ensures Entered(s, Refuse(p.st, m, r), m, now, a, caller)
  {
    hide Dropped;
    var t := Refuse(p.st, m, r);
    var x := t.sent[|p.st.sent|];
    AnswersPlus(p.st.sent, x, a, caller);
    HandedPlus(p.st.sent, x, a, true);
    HandedPlus(p.st.sent, x, a, false);
  }

  lemma AdmitLedger(s: State, m: Msg, p: Placed, now: Time, a: ActionId, caller: Id)
    requires PlacedNewly(s, m, p, now, a, caller)
    ensures Admit(m, p).up ==> Entered(s, Admit(m, p), m, now, a, caller)
    ensures m.actionid !in s.queue ==> Admit(m, p).dropped == s.dropped
  {
    hide Answers, Dropped;
    var t := Admit(m, p);
    if p.st.up {
      if p.rc == -1 || (!m.local && p.call.routedVia.None?) {
        RefuseLedger(s, m, p, NoModules, now, a, caller);
      } else if m.actionid in s.queue {
        DroppedPlus(s.dropped, Drop(m.actionid, m.identity, DuplicateId), a, caller);
      }
    }
  }

  lemma CallLedger(s: State, m: Msg, now: Time, a: ActionId, caller: Id)
    ensures ProcessCall(s, m, now).up ==> Entered(s, ProcessCall(s, m, now), m, now, a, caller)
    ensures m.actionid !in s.queue ==> ProcessCall(s, m, now).dropped == s.dropped
  {
    hide Entered, PlaceCall, Answers, Dropped, HandOuts;
    match CallOf(m, now) {
      case None =>
        var c := NewCall(m, "", "", 0, now);
        RefuseLedger(s, m, Placed(s, c, 0), WrongCall, now, a, caller);
      case Some(c) =>
        PlaceCallLedger(s, c, now, a, caller);
        AdmitLedger(s, m, PlaceCall(s, c, now), now, a, caller);
    }
  }

  // ---------- handlers without calls ----------

  lemma IntroduceLedger(s: State, m: Msg, known: bool, keys: seq<string>, now: Time, a: ActionId, caller: Id)
    requires RegistryOk(s)
    ensures Settled(s, ProcessIntroduce(s, m, known, keys), now, a, caller)
    ensures ProcessIntroduce(s, m, known, keys).dropped == s.dropped
  {
    hide RegistryOk, Settled, ProcessIntroduce;
    IntroduceKeepsRegistry(s, m, known, keys);
    var t := ProcessIntroduce(s, m, known, keys);
    if |t.sent| == |s.sent| { SameLedger(s, t, now, a, caller); }
    else { SaidMore(s, t, t.sent[|s.sent|], now, a, caller); }
  }

  lemma SweepItemLedger(s: State, b: ActionId, now: Time, a: ActionId, caller: Id)
    requires CallsOk(s)
    ensures Settled(s, SweepItem(s, b, now), now, a, caller) && SweepItem(s, b, now).dropped == s.dropped
  {
    if b in s.queue && Expired(s.cfg, s.queue[b], now) {
      var c, t := s.queue[b], SweepItem(s, b, now);
      var e := Sent(c.identity, |c.identity| <= LOCAL_ID_LENGTH || c.identity in s.fabs, Answer, b,
                    Raised(b, TimeoutReason(s.cfg, c, now)));
      Answered(s, t, b, e, now, a, caller);
    }
  }

  lemma {:induction false} SweepLedger(s: State, order: seq<ActionId>, now: Time, a: ActionId, caller: Id)
    requires RegistryOk(s) && CallsOk(s)
    ensures Settled(s, Sweep(s, order, now), now, a, caller) && Sweep(s, order, now).dropped == s.dropped
    decreases |order|
  {
    hide Settled, RegistryOk, SweepItem;
    if order == [] {
      SameLedger(s, s, now, a, caller);
    } else {
      var t := SweepItem(s, order[0], now);
      SweepItemLedger(s, order[0], now, a, caller);
      SweepItemKeepsCalls(s, order[0], now);
      SweepLedger(t, order[1..], now, a, caller);
      SettledTwice(s, t, Sweep(t, order[1..], now), now, a, caller);
    }
  }

  lemma PollItemLedger(s: State, q: Polled, now: Time, a: ActionId, caller: Id)
    ensures Settled(s, PollItem(s, q), now, a, caller) && PollItem(s, q).dropped == s.dropped
  {
    hide Settled;
    var t := PollItem(s, q);
    if t.sent == s.sent { SameLedger(s, t, now, a, caller); }
    else { SaidMore(s, t, t.sent[|s.sent|], now, a, caller); }
  }

  lemma {:induction false} PollLedger(s: State, order: seq<Polled>, now: Time, a: ActionId, caller: Id)
    ensures Settled(s, Poll(s, order), now, a, caller) && Poll(s, order).dropped == s.dropped
    decreases |order|
  {
    hide Settled, PollItem;
    if order == [] {
      SameLedger(s, s, now, a, caller);
    } else {
      var t := PollItem(s, order[0]);
      PollItemLedger(s, order[0], now, a, caller);
      PollLedger(t, order[1..], now, a, caller);
      SettledTwice(s, t, Poll(t, order[1..]), now, a, caller);
    }
  }

  // ---------- every handler ----------

  // One event's effect on the ledger entry of (a, caller), on the queue and on the hand-outs of a
  ghost predicate Recorded(s: State, t: State, e: Event, now: Time, a: ActionId, caller: Id) {
    && Balance(t, a, caller) == Balance(s, a, caller) + (if IsCall(e, a, caller) then 1 else 0)
    && (forall b <- t.queue :: (b in s.queue && CallEvolves(s.queue[b], t.queue[b], now))
         || (b !in s.queue && IsCall(e, b, t.queue[b].identity) && Newly(t.queue[b], t.queue[b].identity, e.local, now)))
    && (forall relayed: bool ::
         if !IsCallFor(e, a) then HandsOver(s, t, now, a, relayed)
         else a !in s.queue && a in t.queue ==> HandedAsStamped(s, t.sent, t.queue[a], a, relayed))
  }

  lemma RequestLedger(s: State, m: Msg, now: Time, a: ActionId, caller: Id)
    ensures Settled(s, ProcessRequest(s, m), now, a, caller)
  {
    hide Settled;
    var t := ProcessRequest(s, m);
    if t.sent == s.sent { SameLedger(s, t, now, a, caller); }
    else { SaidMore(s, t, t.sent[|s.sent|], now, a, caller); }
  }

  // Every command but CALL
  lemma QuietCommandLedger(s: State, verb: Verb, m: Msg, e: Event, now: Time, a: ActionId, caller: Id)
    requires RegistryOk(s) && CallsOk(s) && e.Arrive? && !verb.VCall?
    ensures Settled(s, ProcessCommand(s, verb, m, e, now), now, a, caller)
  {
    hide Settled, RegistryOk, CallsOk, LocalReply, FabricReply, ProcessIntroduce, ProcessRequest;
    SameLedger(s, s, now, a, caller);
    match verb {
      case VResult =>
        if m.actionid in s.queue {
          ResultLedger(s, m, e.order, now, a, caller);
        } else {
          IfaceListKeepsRegistry(s, m);
          SameLedger(s, ProcessIfaceList(s, m), now, a, caller);
        }
      case VException => if m.actionid in s.queue { ExceptionLedger(s, m, e.order, now, a, caller); }
      case VIntroduce => IntroduceLedger(s, m, e.known, e.keys, now, a, caller);
      case VRequest => RequestLedger(s, m, now, a, caller);
      case _ =>
    }
  }

  lemma SettledIsRecorded(s: State, t: State, e: Event, now: Time, a: ActionId, caller: Id)
    requires Settled(s, t, now, a, caller) && !IsCall(e, a, caller) && !IsCallFor(e, a)
    ensures Recorded(s, t, e, now, a, caller)
  {}

  lemma EnteredIsRecorded(s: State, t: State, m: Msg, e: Event, now: Time, a: ActionId, caller: Id)
    requires e.Arrive? && Parse(e.local, e.identity, e.body) == Some((VCall, m))
    requires Entered(s, t, m, now, a, caller)
    ensures Recorded(s, t, e, now, a, caller)
  {}

  lemma CommandLedger(s: State, verb: Verb, m: Msg, e: Event, now: Time, a: ActionId, caller: Id)
    requires RegistryOk(s) && CallsOk(s) && e.Arrive? && Parse(e.local, e.identity, e.body) == Some((verb, m))
    ensures var t := ProcessCommand(s, verb, m, e, now); t.up ==> Recorded(s, t, e, now, a, caller)
  {
    hide Settled, Entered, Recorded, RegistryOk, CallsOk, ProcessCall;
    var t := ProcessCommand(s, verb, m, e, now);
    if verb.VCall? {
      CallLedger(s, m, now, a, caller);
      if t.up { EnteredIsRecorded(s, t, m, e, now, a, caller); }
    } else {
      QuietCommandLedger(s, verb, m, e, now, a, caller);
      SettledIsRecorded(s, t, e, now, a, caller);
    }
  }

  lemma RecordedFrom(s: State, s1: State, t: State, e: Event, now: Time, a: ActionId, caller: Id)
    requires s1.queue == s.queue && s1.sent == s.sent && s1.dropped == s.dropped && Recorded(s1, t, e, now, a, caller)
    ensures Recorded(s, t, e, now, a, caller)
  {
    forall relayed: bool ensures if !IsCallFor(e, a) then HandsOver(s, t, now, a, relayed)
      else a !in s.queue && a in t.queue ==> HandedAsStamped(s, t.sent, t.queue[a], a, relayed)
    {
      assert if !IsCallFor(e, a) then HandsOver(s1, t, now, a, relayed)
        else a !in s1.queue && a in t.queue ==> HandedAsStamped(s1, t.sent, t.queue[a], a, relayed);
    }
  }

  lemma MessageLedger(s: State, e: Event, now: Time, a: ActionId, caller: Id)
    requires RegistryOk(s) && CallsOk(s) && e.Arrive?
    ensures var t := OnMessage(s, e, now); t.up ==> Recorded(s, t, e, now, a, caller)
  {
    hide Recorded, ProcessCommand;
    match Parse(e.local, e.identity, e.body) {
      case None =>
        SameLedger(s, s, now, a, caller);
        SettledIsRecorded(s, s, e, now, a, caller);
      case Some((verb, m)) =>
        var s1 := if e.local then s else MarkAlive(s, e.identity);
        assert s1.fabs.Keys == s.fabs.Keys;
        CommandLedger(s1, verb, m, e, now, a, caller);
        var t := ProcessCommand(s1, verb, m, e, now);
        if t.up { RecordedFrom(s, s1, t, e, now, a, caller); }
    }
  }

  lemma StepLedger(s: State, e: Event, now: Time, a: ActionId, caller: Id)
    requires RegistryOk(s) && CallsOk(s) && s.up
    ensures var t := Step(s, e, now); t.up ==> Recorded(s, t, e, now, a, caller)
  {
    if e.Arrive? {
      hide *;
      MessageLedger(s, e, now, a, caller);
    } else {
      QuietStepLedger(s, e, now, a, caller);
      SettledIsRecorded(s, Step(s, e, now), e, now, a, caller);
    }
  }

  lemma QuietStepLedger(s: State, e: Event, now: Time, a: ActionId, caller: Id)
    requires RegistryOk(s) && CallsOk(s) && s.up && !e.Arrive?
    ensures Settled(s, Step(s, e, now), now, a, caller)
  {
    hide Settled, RegistryOk, CallsOk, Sweep, Poll;
    match e {
      case SweepTimer(order) => SweepLedger(s, order, now, a, caller);
      case PollTimer(order) => PollLedger(s, order, now, a, caller);
      case Beacon(id, connected) => SameLedger(s, OnBeacon(s, id, connected), now, a, caller);
      case FromProcman(f, order) => SameLedger(s, OnProcman(s, f, order), now, a, caller);
    }
  }

  // ---------- discarded calls ----------

  // d is the entry of a call from another fabric, and that fabric is not known any more.
  ghost predicate Gone(s: State, d: Drop) {
    && d.why.FabricGone? && d.caller !in s.fabs
    && d.actionid in s.queue && s.queue[d.actionid].identity == d.caller && !s.queue[d.actionid].local
  }

  ghost predicate DropsOnlyGone(s: State, t: State) {
    forall d <- t.dropped :: d in s.dropped || Gone(s, d)
  }

  lemma FairReplyDrops(s: State, m: Msg, order: seq<ActionId>, now: Time)
    requires RegistryOk(s) && CallsOk(s) && m.actionid in s.queue && FairReply(s, m)
    ensures DropsOnlyGone(s, ProcessResult(s, m, order, now))
    ensures DropsOnlyGone(s, ProcessException(s, m, order, now))
  {
    hide LocalReply, FabricReply, PlaceQueued, RegistryOk;
    var c := s.queue[m.actionid];
    if m.local {
      LocalReplyLedger(s, c, m, order, now, "", "");
    } else {
      FabricReplyLedger(s, c, m, now, "", "");
      PlaceQueuedLedger(s, m.actionid, now, "", "");
    }
  }

  lemma SameDrops(s: State, t: State)
    requires t.dropped == s.dropped
    ensures DropsOnlyGone(s, t)
  {}

  lemma FairCommandDrops(s: State, verb: Verb, m: Msg, e: Event, now: Time)
    requires RegistryOk(s) && CallsOk(s) && e.Arrive?
    requires (verb.VResult? || verb.VException?) && m.actionid in s.queue ==> FairReply(s, m)
    requires verb.VCall? ==> m.actionid !in s.queue
    ensures DropsOnlyGone(s, ProcessCommand(s, verb, m, e, now))
  {
    hide DropsOnlyGone, RegistryOk, CallsOk, LocalReply, FabricReply, ProcessCall, ProcessIntroduce, ProcessRequest;
    var t := ProcessCommand(s, verb, m, e, now);
    SameDrops(s, s);
    match verb {
      case VResult =>
        if m.actionid in s.queue { FairReplyDrops(s, m, e.order, now); }
        else { IfaceListKeepsRegistry(s, m); SameDrops(s, t); }
      case VException => if m.actionid in s.queue { FairReplyDrops(s, m, e.order, now); }
      case VCall => CallLedger(s, m, now, "", ""); SameDrops(s, t);
      case VIntroduce => IntroduceLedger(s, m, e.known, e.keys, now, "", ""); SameDrops(s, t);
      case VRequest => RequestDrops(s, m); SameDrops(s, t);
      case _ =>
    }
  }

  lemma RequestDrops(s: State, m: Msg)
    ensures ProcessRequest(s, m).dropped == s.dropped
  {}

  lemma FairStepDrops(s: State, e: Event, now: Time)
    requires RegistryOk(s) && CallsOk(s) && s.up && Fair(s, e)
    ensures DropsOnlyGone(s, Step(s, e, now))
  {
    hide DropsOnlyGone, ProcessCommand, Sweep, Poll;
    SameDrops(s, s);
    match e {
      case Arrive(local, identity, body, _, _, _) =>
        match Parse(local, identity, body) {
          case None =>
          case Some((verb, m)) =>
            var s1 := if local then s else MarkAlive(s, identity);
            assert s1.fabs.Keys == s.fabs.Keys;
            FairCommandDrops(s1, verb, m, e, now);
            SameDropsFrom(s, s1, ProcessCommand(s1, verb, m, e, now));
        }
      case SweepTimer(order) => SweepLedger(s, order, now, "", ""); SameDrops(s, Sweep(s, order, now));
      case PollTimer(order) => PollLedger(s, order, now, "", ""); SameDrops(s, Poll(s, order));
      case Beacon(id, connected) => SameDrops(s, OnBeacon(s, id, connected));
      case FromProcman(f, order) => SameDrops(s, OnProcman(s, f, order));
    }
  }

  lemma SameDropsFrom(s: State, s1: State, t: State)
    requires s1.dropped == s.dropped && s1.queue == s.queue && s1.fabs.Keys == s.fabs.Keys && DropsOnlyGone(s1, t)
    ensures DropsOnlyGone(s, t)
  {}

  // ---------- runs ----------

  // The ledger balances over every run, whatever peers send and however often: the CALLs received
  // from a caller under an id are the answers handed to send_message for it, plus the entry still
  // queued, plus the calls discarded unanswered.
  lemma {:induction false} LedgerBalances(cfg: Config, ticks: seq<Tick>, a: ActionId, caller: Id)
    requires Run(cfg, ticks).up
    ensures Calls(ticks, a, caller) == Balance(Run(cfg, ticks), a, caller)
  {
    if ticks != [] {
      var before, last := ticks[..|ticks| - 1], ticks[|ticks| - 1];
      assert Run(cfg, before).up;
      LedgerBalances(cfg, before, a, caller);
      RunKeepsCalls(cfg, before);
      StepLedger(Run(cfg, before), last.ev, last.now, a, caller);
    }
  }

  lemma AtMostOneAnswerPerCall(cfg: Config, ticks: seq<Tick>, a: ActionId, caller: Id)
    requires Run(cfg, ticks).up
    ensures Answers(Run(cfg, ticks).sent, a, caller) + Pending(Run(cfg, ticks).queue, a, caller) <= Calls(ticks, a, caller)
  {
    LedgerBalances(cfg, ticks, a, caller);
  }

  // A queued call is a CALL received at its arrival time, and has been queued ever since.
  lemma {:induction false} QueuedCallWasReceived(cfg: Config, ticks: seq<Tick>, a: ActionId) returns (k: nat)
    requires Run(cfg, ticks).up && a in Run(cfg, ticks).queue
    ensures var c := Run(cfg, ticks).queue[a];
      k < |ticks| && ticks[k].now == c.inTs && IsCall(ticks[k].ev, a, c.identity) && ticks[k].ev.local == c.local
    ensures a !in Run(cfg, ticks[..k]).queue
    ensures forall n | k < n <= |ticks| :: a in Run(cfg, ticks[..n]).queue
  {
    hide Step, RegistryOk, CallsOk;
    var before, last := ticks[..|ticks| - 1], ticks[|ticks| - 1];
    var s, t := Run(cfg, before), Run(cfg, ticks);
    StayedUp(cfg, ticks);
    RunKeepsCalls(cfg, before);
    StepLedger(s, last.ev, last.now, "", "");
    assert Recorded(s, t, last.ev, last.now, "", "");
    assert ticks[..|ticks|] == ticks;
    if a in s.queue {
      k := QueuedCallWasReceived(cfg, before, a);
      assert ticks[..k] == before[..k];
      assert forall n | k < n <= |before| :: ticks[..n] == before[..n];
    } else {
      k := |before|;
    }
  }

  lemma StayedUp(cfg: Config, ticks: seq<Tick>)
    requires Run(cfg, ticks).up && ticks != []
    ensures Run(cfg, ticks[..|ticks| - 1]).up
  {}

  // d was a CALL from another fabric, and at some time after it was received that fabric was not known.
  ghost predicate Vanished(cfg: Config, ticks: seq<Tick>, d: Drop) {
    exists k, n | 0 <= k < n <= |ticks| ::
      IsCall(ticks[k].ev, d.actionid, d.caller) && !ticks[k].ev.local && d.caller !in Run(cfg, ticks[..n]).fabs
  }

  lemma GoneVanished(cfg: Config, before: seq<Tick>, last: Tick, d: Drop)
    requires Run(cfg, before).up
    requires Vanished(cfg, before, d) || Gone(Run(cfg, before), d)
    ensures Vanished(cfg, before + [last], d)
  {
    var ticks := before + [last];
    var k, n: nat;
    if Gone(Run(cfg, before), d) {
      k := QueuedCallWasReceived(cfg, before, d.actionid);
      n := |before|;
      assert before[..n] == before;
    } else {
      k, n :| 0 <= k < n <= |before| && IsCall(before[k].ev, d.actionid, d.caller)
        && !before[k].ev.local && d.caller !in Run(cfg, before[..n]).fabs;
    }
    assert ticks[..n] == before[..n] && ticks[k] == before[k];
  }

  // In a fair run a call is discarded only if it came from another fabric and that fabric was
  // dropped from the table while the call was waiting.
  lemma {:induction false} OnlyVanishedFabricsAreDropped(cfg: Config, ticks: seq<Tick>)
    requires Run(cfg, ticks).up && FairRun(cfg, ticks)
    ensures forall d <- Run(cfg, ticks).dropped :: d.why.FabricGone? && Vanished(cfg, ticks, d)
  {
    hide Step, RegistryOk, CallsOk, Vanished;
    if ticks != [] {
      var before, last := ticks[..|ticks| - 1], ticks[|ticks| - 1];
      StayedUp(cfg, ticks);
      OnlyVanishedFabricsAreDropped(cfg, before);
      RunKeepsCalls(cfg, before);
      FairStepDrops(Run(cfg, before), last.ev, last.now);
      forall d <- Run(cfg, ticks).dropped ensures d.why.FabricGone? && Vanished(cfg, ticks, d) {
        GoneVanished(cfg, before, last, d);
        assert before + [last] == ticks;
      }
    }
  }
}
