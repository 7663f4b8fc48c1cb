/** How long a call can wait for its answer when the timeout sweep runs at least every `period`
    microseconds. */
module Timing {
  import opened Tables
  import opened Steps
  import opened Registry
  import opened Queue
  import opened InFlight
  import opened Ledger
  import opened Replies
  import opened Staying

  function Now(ticks: seq<Tick>, start: Time): Time {
    if ticks == [] then start else ticks[|ticks| - 1].now
  }

  // The last sweep, or the start
  function LastSweep(ticks: seq<Tick>, start: Time): Time {
    if ticks == [] then start
    else if ticks[|ticks| - 1].ev.SweepTimer? then ticks[|ticks| - 1].now
    else LastSweep(ticks[..|ticks| - 1], start)
  }

  // The clock does not run backwards, no event happens more than `period` after the last sweep,
  // and every sweep visits the whole queue.
  ghost predicate Timely(cfg: Config, ticks: seq<Tick>, start: Time, period: nat) {
    ticks == [] ||
    var before, last := ticks[..|ticks| - 1], ticks[|ticks| - 1];
    && Timely(cfg, before, start, period)
    && Now(before, start) <= last.now <= LastSweep(before, start) + period
    && (last.ev.SweepTimer? ==> forall a <- Run(cfg, before).queue :: a in last.ev.order)
  }

  function InLimit(cfg: Config): nat { cfg.inTimeout * 1000 }
  function ProcessLimit(cfg: Config): nat { cfg.processTimeout * 1000 }

  ghost predicate CallOnTime(cfg: Config, c: Call, now: Time, swept: Time, period: nat) {
    && 0 < c.inTs <= now && c.procTs <= now
    && (c.procTs == 0 ==> swept - c.inTs <= InLimit(cfg))
    && (c.procTs != 0 ==> c.procTs - c.inTs <= InLimit(cfg) + period && swept - c.procTs <= ProcessLimit(cfg))
  }

  ghost predicate QueueOnTime(s: State, now: Time, swept: Time, period: nat) {
    forall a <- s.queue :: CallOnTime(s.cfg, s.queue[a], now, swept, period)
  }

  // ---------- the sweep ----------

  // The sweep visits every entry of the order it is given; what it leaves is not expired.
  lemma {:induction false} SweepLeavesFresh(s: State, order: seq<ActionId>, done: set<ActionId>, now: Time)
    requires RegistryOk(s) && CallsOk(s)
    requires forall a <- s.queue | a in done :: !Expired(s.cfg, s.queue[a], now)
    ensures var t := Sweep(s, order, now);
      && t.cfg == s.cfg
      && (forall a <- t.queue :: a in s.queue && t.queue[a] == s.queue[a])
      && (forall a <- t.queue | a in done || a in order :: !Expired(s.cfg, t.queue[a], now))
    decreases |order|
  {
    hide RegistryOk, CallsOk;
    if order != [] {
      var t := SweepItem(s, order[0], now);
      SweepItemKeepsCalls(s, order[0], now);
      SweepLeavesFresh(t, order[1..], done + {order[0]}, now);
      assert forall a :: a in order <==> a == order[0] || a in order[1..];
    }
  }

  ghost predicate Fresh(cfg: Config, c: Call, now: Time) {
    if c.procTs == 0 then now - c.inTs <= InLimit(cfg) else now - c.procTs <= ProcessLimit(cfg)
  }

  lemma NotExpiredIsFresh(cfg: Config, c: Call, now: Time)
    requires Stamped(c) && c.inTs <= now && c.procTs <= now && !Expired(cfg, c, now)
    ensures Fresh(cfg, c, now)
  {
    assert Elapsed(now, c.inTs) == now - c.inTs && Elapsed(now, c.procTs) == now - c.procTs;
  }

  // After a sweep no undispatched call is older than in_timeout and no dispatched one has been
  // with its module longer than process_timeout.
  lemma AfterSweep(s: State, order: seq<ActionId>, now: Time)
    requires RegistryOk(s) && CallsOk(s)
    requires forall a <- s.queue :: a in order && s.queue[a].inTs <= now && s.queue[a].procTs <= now
    ensures var t := Sweep(s, order, now);
      forall a <- t.queue :: a in s.queue && t.queue[a] == s.queue[a] && Fresh(s.cfg, t.queue[a], now)
  {
    SweepLeavesFresh(s, order, {}, now);
    var t := Sweep(s, order, now);
    forall a <- t.queue ensures Fresh(s.cfg, t.queue[a], now) {
      assert CallOk(s.queue[a], s.store);
      NotExpiredIsFresh(s.cfg, t.queue[a], now);
    }
  }

  // ---------- one event ----------

  lemma EvolvesOnTime(cfg: Config, c: Call, d: Call, now: Time, earlier: Time, swept: Time, period: nat)
    requires CallOnTime(cfg, c, earlier, swept, period) && CallEvolves(c, d, now)
    requires swept <= earlier <= now <= swept + period
    ensures CallOnTime(cfg, d, now, swept, period)
  {
    assert Stamp(d, false) == d.procTs;
  }

  lemma NewIsOnTime(cfg: Config, c: Call, identity: Id, local: bool, now: Time, swept: Time, period: nat)
    requires Newly(c, identity, local, now) && swept <= now <= swept + period
    ensures CallOnTime(cfg, c, now, swept, period)
  {
    assert Stamp(c, false) == c.procTs;
  }

  lemma StepOnTime(s: State, e: Event, now: Time, earlier: Time, swept: Time, period: nat)
    requires RegistryOk(s) && CallsOk(s) && s.up && Step(s, e, now).up
    requires QueueOnTime(s, earlier, swept, period) && swept <= earlier <= now <= swept + period
    requires e.SweepTimer? ==> forall a <- s.queue :: a in e.order
    ensures QueueOnTime(Step(s, e, now), now, if e.SweepTimer? then now else swept, period)
  {
    hide RegistryOk, CallsOk, CallEvolves, Newly, HandsOver, HandedAsStamped, OnMessage, Sweep, Poll;
    var t := Step(s, e, now);
    StepConfig(s, e, now);
    if e.SweepTimer? {
      AfterSweep(s, e.order, now);
    } else {
      StepLedger(s, e, now, "", "");
      assert Recorded(s, t, e, now, "", "");
      forall a <- t.queue ensures CallOnTime(t.cfg, t.queue[a], now, swept, period) {
        if a in s.queue { EvolvesOnTime(s.cfg, s.queue[a], t.queue[a], now, earlier, swept, period); }
        else { NewIsOnTime(s.cfg, t.queue[a], t.queue[a].identity, e.local, now, swept, period); }
      }
    }
  }

  lemma {:induction false} RunOnTime(cfg: Config, ticks: seq<Tick>, start: Time, period: nat)
    requires Run(cfg, ticks).up && Timely(cfg, ticks, start, period)
    ensures QueueOnTime(Run(cfg, ticks), Now(ticks, start), LastSweep(ticks, start), period)
    ensures LastSweep(ticks, start) <= Now(ticks, start) <= LastSweep(ticks, start) + period
  {
    if ticks != [] {
      var before, last := ticks[..|ticks| - 1], ticks[|ticks| - 1];
      assert Run(cfg, before).up;
      RunOnTime(cfg, before, start, period);
      RunKeepsCalls(cfg, before);
      StepOnTime(Run(cfg, before), last.ev, last.now, Now(before, start), LastSweep(before, start), period);
    }
  }

  // in_timeout + process_timeout + two sweep periods
  function ReplyBound(cfg: Config, period: nat): nat { InLimit(cfg) + ProcessLimit(cfg) + 2 * period }

  lemma CallsAreYoung(cfg: Config, ticks: seq<Tick>, start: Time, period: nat, a: ActionId)
    requires Run(cfg, ticks).up && Timely(cfg, ticks, start, period) && a in Run(cfg, ticks).queue
    ensures Now(ticks, start) - Run(cfg, ticks).queue[a].inTs <= ReplyBound(cfg, period)
  {
    RunOnTime(cfg, ticks, start, period);
    RunConfig(cfg, ticks);
  }

  // No call is ever queued for longer than the bound, in any run in which sweeps are timely and
  // nothing brings the broker down.
  lemma NoCallWaitsLonger(cfg: Config, ticks: seq<Tick>, start: Time, period: nat, a: ActionId)
    requires Guarded(cfg, ticks) && Timely(cfg, ticks, start, period)
    ensures Run(cfg, ticks).up
    ensures a in Run(cfg, ticks).queue ==> Now(ticks, start) - Run(cfg, ticks).queue[a].inTs <= ReplyBound(cfg, period)
  {
    RunStaysUp(cfg, ticks);
    if a in Run(cfg, ticks).queue { CallsAreYoung(cfg, ticks, start, period, a); }
  }

  // ---------- the guarantee ----------

  lemma {:induction false} CallsCount(ticks: seq<Tick>, a: ActionId, caller: Id, i: nat, j: nat)
    requires i < j < |ticks| && IsCall(ticks[i].ev, a, caller) && IsCall(ticks[j].ev, a, caller)
    ensures Calls(ticks, a, caller) >= 2
  {
    var before := ticks[..|ticks| - 1];
    if j < |before| {
      CallsCount(before, a, caller, i, j);
    } else {
      CallsAtLeastOne(before, a, caller, i);
    }
  }

  lemma {:induction false} CallsAtLeastOne(ticks: seq<Tick>, a: ActionId, caller: Id, i: nat)
    requires i < |ticks| && IsCall(ticks[i].ev, a, caller)
    ensures Calls(ticks, a, caller) >= 1
  {
    if i < |ticks| - 1 { CallsAtLeastOne(ticks[..|ticks| - 1], a, caller, i); }
  }

  lemma {:induction false} DroppedIsListed(dropped: seq<Drop>, a: ActionId, caller: Id) returns (d: Drop)
    requires Dropped(dropped, a, caller) > 0
    ensures d in dropped && d.actionid == a && d.caller == caller
  {
    d := dropped[|dropped| - 1];
    if d.actionid != a || d.caller != caller { d := DroppedIsListed(dropped[..|dropped| - 1], a, caller); }
  }

  // The call was discarded only because its caller is a fabric that was dropped in the meantime.
  lemma DroppedWasForeign(cfg: Config, ticks: seq<Tick>, i: nat, a: ActionId, caller: Id)
    requires Run(cfg, ticks).up && FairRun(cfg, ticks)
    requires i < |ticks| && IsCall(ticks[i].ev, a, caller) && Calls(ticks, a, caller) == 1
    requires Dropped(Run(cfg, ticks).dropped, a, caller) > 0
    ensures !ticks[i].ev.local && exists n | i < n <= |ticks| :: caller !in Run(cfg, ticks[..n]).fabs
  {
    hide Run, FairRun;
    OnlyVanishedFabricsAreDropped(cfg, ticks);
    var d := DroppedIsListed(Run(cfg, ticks).dropped, a, caller);
    var k, n :| 0 <= k < n <= |ticks| && IsCall(ticks[k].ev, d.actionid, d.caller)
      && !ticks[k].ev.local && d.caller !in Run(cfg, ticks[..n]).fabs;
    if k < i { CallsCount(ticks, a, caller, k, i); }
    if i < k { CallsCount(ticks, a, caller, i, k); }
  }

  // The server guarantees the reply: in a fair run with timely sweeps in which nothing brings the
  // broker down, once the bound has passed since a caller's CALL under an id it used once, exactly one
  // answer has been handed to send_message for it - always if the caller is a local module, and unless
  // it was dropped from the table in the meantime if it is another fabric. What goes to an identity
  // that is short, as those of local modules are, is handed to the local socket.
  lemma EveryCallIsAnswered(cfg: Config, ticks: seq<Tick>, start: Time, period: nat, i: nat, a: ActionId, caller: Id)
    requires Guarded(cfg, ticks) && FairRun(cfg, ticks) && Timely(cfg, ticks, start, period)
    requires i < |ticks| && IsCall(ticks[i].ev, a, caller) && Calls(ticks, a, caller) == 1
    requires Now(ticks, start) - ticks[i].now > ReplyBound(cfg, period)
    ensures var s := Run(cfg, ticks);
      && s.up && Answers(s.sent, a, caller) <= 1
      && (ticks[i].ev.local ==> Answers(s.sent, a, caller) == 1)
      && (Answers(s.sent, a, caller) == 1 || exists n | i < n <= |ticks| :: caller !in Run(cfg, ticks[..n]).fabs)
      && (|caller| <= LOCAL_ID_LENGTH ==> forall x <- s.sent | x.to == caller :: x.reached)
  {
    AllReach(cfg, ticks);
    hide Guarded, FairRun, Run, Answers, Dropped, Calls;
    var s := Run(cfg, ticks);
    RunStaysUp(cfg, ticks);
    LedgerBalances(cfg, ticks, a, caller);
    if Pending(s.queue, a, caller) == 1 { StillQueuedIsYoung(cfg, ticks, start, period, i, a, caller); }
    if Dropped(s.dropped, a, caller) > 0 { DroppedWasForeign(cfg, ticks, i, a, caller); }
  }

  lemma AllReach(cfg: Config, ticks: seq<Tick>)
    ensures forall x <- Run(cfg, ticks).sent :: Reaches(x)
  {
    AnswersAreHonest(cfg, ticks);
    var sent := Run(cfg, ticks).sent;
    forall x <- sent ensures Reaches(x) {
      var k :| 0 <= k < |sent| && sent[k] == x;
      assert Honest(ticks, sent[k]);
    }
  }

  lemma StillQueuedIsYoung(cfg: Config, ticks: seq<Tick>, start: Time, period: nat, i: nat, a: ActionId, caller: Id)
    requires Run(cfg, ticks).up && Timely(cfg, ticks, start, period)
    requires i < |ticks| && IsCall(ticks[i].ev, a, caller) && Calls(ticks, a, caller) == 1
    requires Pending(Run(cfg, ticks).queue, a, caller) == 1
    ensures Now(ticks, start) - ticks[i].now <= ReplyBound(cfg, period)
  {
    CallsAreYoung(cfg, ticks, start, period, a);
    var k := QueuedCallWasReceived(cfg, ticks, a);
    if k < i { CallsCount(ticks, a, caller, k, i); }
    if i < k { CallsCount(ticks, a, caller, i, k); }
  }
}
