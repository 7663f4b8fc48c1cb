/** Which calls a sweep answers and what it tells them, in terms of what happened to the call in the run. */
module Timeouts {
  import opened Text
  import opened Messages
  import opened Tables
  import opened Steps
  import opened Registry
  import opened Queue
  import opened InFlight
  import opened Ledger
  import opened Timing
  import opened Replies

  // The k-th event handed a call with this id to a module, or (relayed) to another fabric.
  ghost predicate HandedAt(cfg: Config, ticks: seq<Tick>, k: int, a: ActionId, relayed: bool) {
    0 <= k < |ticks| && HandOuts(Run(cfg, ticks[..k + 1]).sent, a, relayed) > HandOuts(Run(cfg, ticks[..k]).sent, a, relayed)
  }

  // Of the events since i only the k-th did.
  ghost predicate OnceAt(cfg: Config, ticks: seq<Tick>, i: nat, k: int, a: ActionId, relayed: bool) {
    HandedAt(cfg, ticks, k, a, relayed) && forall j | i <= j < |ticks| :: HandedAt(cfg, ticks, j, a, relayed) ==> j == k
  }

  // Since event i the call was never handed out, or once, at the time of its stamp.
  ghost predicate TrueStamp(cfg: Config, ticks: seq<Tick>, i: nat, a: ActionId, relayed: bool, stamp: U64) {
    if stamp == 0 then forall k | i <= k < |ticks| :: !HandedAt(cfg, ticks, k, a, relayed)
    else exists k | i <= k < |ticks| :: OnceAt(cfg, ticks, i, k, a, relayed) && ticks[k].now == stamp
  }

  lemma HandedBefore(cfg: Config, before: seq<Tick>, last: Tick, k: int, a: ActionId, relayed: bool)
    requires k < |before|
    ensures HandedAt(cfg, before + [last], k, a, relayed) == HandedAt(cfg, before, k, a, relayed)
  {
    if k >= 0 {
      assert (before + [last])[..k + 1] == before[..k + 1];
      assert (before + [last])[..k] == before[..k];
    }
  }

  lemma HandedLast(cfg: Config, before: seq<Tick>, last: Tick, a: ActionId, relayed: bool)
    ensures HandedAt(cfg, before + [last], |before|, a, relayed) <==>
      HandOuts(Step(Run(cfg, before), last.ev, last.now).sent, a, relayed) > HandOuts(Run(cfg, before).sent, a, relayed)
  {
    var ticks := before + [last];
    assert ticks[..|before| + 1] == ticks && ticks[..|before|] == before;
  }

  lemma StampStaysTrue(cfg: Config, before: seq<Tick>, last: Tick, i: nat, a: ActionId, relayed: bool, old': U64, new': U64)
    requires i < |before| && TrueStamp(cfg, before, i, a, relayed, old')
    requires var n := HandOuts(Run(cfg, before).sent, a, relayed);
      var m := HandOuts(Step(Run(cfg, before), last.ev, last.now).sent, a, relayed);
      (m == n && new' == old') || (m == n + 1 && old' == 0 && new' == last.now)
    ensures TrueStamp(cfg, before + [last], i, a, relayed, new')
  {
    hide HandOuts, Run, Step, HandedAt;
    var ticks := before + [last];
    HandedLast(cfg, before, last, a, relayed);
    forall k | i <= k < |before| ensures HandedAt(cfg, ticks, k, a, relayed) == HandedAt(cfg, before, k, a, relayed) {
      HandedBefore(cfg, before, last, k, a, relayed);
    }
    if old' != 0 {
      var k :| i <= k < |before| && OnceAt(cfg, before, i, k, a, relayed) && before[k].now == old';
      assert OnceAt(cfg, ticks, i, k, a, relayed) && ticks[k] == before[k];
    } else if new' != 0 {
      assert OnceAt(cfg, ticks, i, |before|, a, relayed) && ticks[|before|] == last;
    }
  }

  lemma StampStartsTrue(cfg: Config, before: seq<Tick>, last: Tick, a: ActionId, relayed: bool, stamp: U64)
    requires stamp == 0 || stamp == last.now
    requires HandOuts(Step(Run(cfg, before), last.ev, last.now).sent, a, relayed)
      == HandOuts(Run(cfg, before).sent, a, relayed) + if stamp != 0 then 1 else 0
    ensures TrueStamp(cfg, before + [last], |before|, a, relayed, stamp)
  {
    hide HandOuts, Run, Step, HandedAt;
    HandedLast(cfg, before, last, a, relayed);
    assert (before + [last])[|before|] == last;
    assert stamp != 0 ==> OnceAt(cfg, before + [last], |before|, |before|, a, relayed);
  }

  // The call received at event i under id a has been queued ever since.
  ghost predicate QueuedSince(cfg: Config, ticks: seq<Tick>, i: nat, a: ActionId) {
    && i < |ticks| && a !in Run(cfg, ticks[..i]).queue
    && forall n | i < n <= |ticks| :: a in Run(cfg, ticks[..n]).queue
  }

  lemma StillQueued(cfg: Config, ticks: seq<Tick>, i: nat, a: ActionId)
    requires ticks != [] && QueuedSince(cfg, ticks[..|ticks| - 1], i, a) && a in Run(cfg, ticks).queue
    ensures QueuedSince(cfg, ticks, i, a)
  {
    hide Run;
    var before := ticks[..|ticks| - 1];
    assert forall n | 0 <= n <= |before| :: before[..n] == ticks[..n];
    assert ticks[..|ticks|] == ticks;
  }

  lemma QueuedNow(cfg: Config, ticks: seq<Tick>, a: ActionId)
    requires ticks != [] && a !in Run(cfg, ticks[..|ticks| - 1]).queue && a in Run(cfg, ticks).queue
    ensures QueuedSince(cfg, ticks, |ticks| - 1, a)
  {
    assert ticks[..|ticks|] == ticks;
  }

  // In a fair run the timestamps of a queued call say when it was received, handed to a module and
  // handed to a fabric, and it was so at most once since it was received.
  lemma {:induction false} StampsAreTrue(cfg: Config, ticks: seq<Tick>, a: ActionId) returns (i: nat)
    requires Run(cfg, ticks).up && FairRun(cfg, ticks) && a in Run(cfg, ticks).queue
    ensures var c := Run(cfg, ticks).queue[a];
      && i < |ticks| && IsCall(ticks[i].ev, a, c.identity) && ticks[i].now == c.inTs && QueuedSince(cfg, ticks, i, a)
      && TrueStamp(cfg, ticks, i, a, false, c.procTs) && TrueStamp(cfg, ticks, i, a, true, c.outTs)
  {
    hide Step, RegistryOk, CallsOk, TrueStamp, HandOuts, QueuedSince;
    var before, last := ticks[..|ticks| - 1], ticks[|ticks| - 1];
    var s, t := Run(cfg, before), Run(cfg, ticks);
    assert before + [last] == ticks;
    StayedUp(cfg, ticks);
    RunKeepsCalls(cfg, before);
    StepLedger(s, last.ev, last.now, a, "");
    assert Recorded(s, t, last.ev, last.now, a, "");
    if a in s.queue {
      i := StampsAreTrue(cfg, before, a);
      StillQueued(cfg, ticks, i, a);
      assert !IsCallFor(last.ev, a);
      assert HandsOver(s, t, last.now, a, false) && HandsOver(s, t, last.now, a, true);
      StampStaysTrue(cfg, before, last, i, a, false, s.queue[a].procTs, t.queue[a].procTs);
      StampStaysTrue(cfg, before, last, i, a, true, s.queue[a].outTs, t.queue[a].outTs);
    } else {
      i := |before|;
      QueuedNow(cfg, ticks, a);
      assert IsCallFor(last.ev, a);
      assert HandedAsStamped(s, t.sent, t.queue[a], a, false) && HandedAsStamped(s, t.sent, t.queue[a], a, true);
      assert Stamp(t.queue[a], false) == t.queue[a].procTs && Stamp(t.queue[a], true) == t.queue[a].outTs;
      StampStartsTrue(cfg, before, last, a, false, t.queue[a].procTs);
      StampStartsTrue(cfg, before, last, a, true, t.queue[a].outTs);
    }
  }

  // ---------- sweeps ----------

  // The call received at event i has been handed out since.
  ghost predicate Given(cfg: Config, ticks: seq<Tick>, i: nat, a: ActionId, relayed: bool) {
    exists k | i <= k < |ticks| :: HandedAt(cfg, ticks, k, a, relayed)
  }

  // ... and longer ago than the limit
  ghost predicate Overdue(cfg: Config, ticks: seq<Tick>, i: nat, a: ActionId, relayed: bool, limit: nat, now: Time) {
    exists k | i <= k < |ticks| :: HandedAt(cfg, ticks, k, a, relayed) && now - ticks[k].now > limit
  }

  lemma {:induction false} ClockRises(cfg: Config, ticks: seq<Tick>, start: Time, period: nat, k: nat)
    requires Timely(cfg, ticks, start, period) && k < |ticks|
    ensures ticks[k].now <= Now(ticks, start)
  {
    if k < |ticks| - 1 { ClockRises(cfg, ticks[..|ticks| - 1], start, period, k); }
  }

  lemma StampTells(cfg: Config, ticks: seq<Tick>, i: nat, a: ActionId, relayed: bool, stamp: U64, limit: nat, now: Time)
    requires TrueStamp(cfg, ticks, i, a, relayed, stamp)
    requires forall k | 0 <= k < |ticks| :: ticks[k].now <= now
    ensures stamp != 0 <==> Given(cfg, ticks, i, a, relayed)
    ensures stamp != 0 && Elapsed(now, stamp) > limit <==> Overdue(cfg, ticks, i, a, relayed, limit, now)
  {
    hide HandedAt;
    if stamp != 0 {
      var k :| i <= k < |ticks| && OnceAt(cfg, ticks, i, k, a, relayed) && ticks[k].now == stamp;
      assert Elapsed(now, stamp) == now - ticks[k].now;
    }
  }

  lemma {:induction false} SweepKeepsFresh(s: State, order: seq<ActionId>, now: Time, a: ActionId)
    requires a in s.queue && !Expired(s.cfg, s.queue[a], now)
    ensures a in Sweep(s, order, now).queue
    decreases |order|
  {
    if order != [] {
      SweepItemFrame(s, order[0], now);
      SweepKeepsFresh(SweepItem(s, order[0], now), order[1..], now, a);
    }
  }

  // What a call that is answered by a sweep has waited for in vain
  ghost function Verdict(cfg: Config, ticks: seq<Tick>, i: nat, a: ActionId, now: Time): Reason {
    if Given(cfg, ticks, i, a, false) then ProcessTimeout
    else if Overdue(cfg, ticks, i, a, true, cfg.outTimeout * 1000, now) then GlobalTimeout
    else AllBusy
  }

  // When a call received at event i is due
  ghost predicate Due(cfg: Config, ticks: seq<Tick>, i: nat, a: ActionId, now: Time)
    requires i < |ticks|
  {
    if Given(cfg, ticks, i, a, false) then Overdue(cfg, ticks, i, a, false, cfg.processTimeout * 1000, now)
    else now - ticks[i].now > cfg.inTimeout * 1000 || Overdue(cfg, ticks, i, a, true, cfg.outTimeout * 1000, now)
  }

  ghost predicate IsTold(sent: seq<Sent>, to: Id, a: ActionId, r: Reason) {
    exists x <- sent :: x.kind.Answer? && x.to == to && x.actionid == a && x.body == Raised(a, r)
  }

  // A sweep answers exactly the calls that are due: one that a module has, when process_timeout is
  // over since it was given to it; any other when in_timeout is over since it came, or out_timeout
  // since it was handed to a fabric. The answer names the module, the fabric, or says that all are
  // busy - the last also to a call that a fabric has, if in_timeout is over and out_timeout is not.
  lemma SweepsAreJust(cfg: Config, ticks: seq<Tick>, sweep: Tick, start: Time, period: nat, a: ActionId) returns (i: nat)
    requires Run(cfg, ticks).up && FairRun(cfg, ticks) && a in Run(cfg, ticks).queue
    requires sweep.ev.SweepTimer? && Timely(cfg, ticks + [sweep], start, period)
    ensures var c, t := Run(cfg, ticks).queue[a], Run(cfg, ticks + [sweep]);
      && i < |ticks| && IsCall(ticks[i].ev, a, c.identity) && ticks[i].now == c.inTs && QueuedSince(cfg, ticks, i, a)
      && (a !in t.queue <==> Due(cfg, ticks, i, a, sweep.now))
      && (a !in t.queue ==> IsTold(NewlySent(Run(cfg, ticks), t), c.identity, a, Verdict(cfg, ticks, i, a, sweep.now)))
      && TrueStamp(cfg, ticks, i, a, false, c.procTs) && TrueStamp(cfg, ticks, i, a, true, c.outTs)
  {
    hide Step, Expired, TimeoutReason, Sweep, TrueStamp, Given, Overdue, RegistryOk;
    var all := ticks + [sweep];
    assert all[..|all| - 1] == ticks;
    var s, t := Run(cfg, ticks), Run(cfg, all);
    var c, now := s.queue[a], sweep.now;
    SweepStep(s, sweep);
    RunKeepsCalls(cfg, ticks);
    RunConfig(cfg, ticks);
    i := StampsAreTrue(cfg, ticks, a);
    forall k | 0 <= k < |ticks| ensures ticks[k].now <= now { ClockRises(cfg, ticks, start, period, k); }
    StampTells(cfg, ticks, i, a, false, c.procTs, cfg.processTimeout * 1000, now);
    StampTells(cfg, ticks, i, a, true, c.outTs, cfg.outTimeout * 1000, now);
    ReasonIsRight(cfg, c, now);
    assert Elapsed(now, c.inTs) == now - ticks[i].now;
    if Expired(cfg, c, now) { SweepAnswers(s, sweep.ev.order, now, a); } else { SweepKeepsFresh(s, sweep.ev.order, now, a); }
  }

  lemma SweepStep(s: State, sweep: Tick)
    requires s.up && sweep.ev.SweepTimer?
    ensures Step(s, sweep.ev, sweep.now) == Sweep(s, sweep.ev.order, sweep.now)
  {}

  lemma ReasonIsRight(cfg: Config, c: Call, now: Time)
    requires Stamped(c)
    ensures Expired(cfg, c, now) <==>
      if c.procTs != 0 then Elapsed(now, c.procTs) > cfg.processTimeout * 1000
      else Elapsed(now, c.inTs) > cfg.inTimeout * 1000 || (c.outTs != 0 && Elapsed(now, c.outTs) > cfg.outTimeout * 1000)
    ensures Expired(cfg, c, now) ==>
              TimeoutReason(cfg, c, now) ==
                if c.procTs != 0 then ProcessTimeout
                else if c.outTs != 0 && Elapsed(now, c.outTs) > cfg.outTimeout * 1000 then GlobalTimeout
                else AllBusy
  {}

  // What a sweep says under the id of a queued call is the reason why that call is given up.
  lemma ToldIsDue(s: State, order: seq<ActionId>, now: Time, a: ActionId, to: Id, r: Reason)
    requires CallsOk(s) && IsTold(NewlySent(s, Sweep(s, order, now)), to, a, r)
    ensures a in s.queue && a !in Sweep(s, order, now).queue && r == TimeoutReason(s.cfg, s.queue[a], now)
  {
    hide Sweep, TimeoutReason, NewlySent, Raised;
    var x :| x in NewlySent(s, Sweep(s, order, now)) && x.kind.Answer? && x.to == to && x.actionid == a && x.body == Raised(a, r);
    SweepSaysOnce(s, order, now, a, x);
    ReasonsDiffer(a, r, TimeoutReason(s.cfg, s.queue[a], now));
  }

  // A call that a fabric has is told that all modules are busy exactly if in_timeout has run out since
  // it was received and out_timeout has not run out since it was handed on.
  lemma RelayedCallIsToldBusy(cfg: Config, ticks: seq<Tick>, sweep: Tick, start: Time, period: nat, a: ActionId)
    returns (i: nat, k: nat)
    requires Run(cfg, ticks).up && FairRun(cfg, ticks) && a in Run(cfg, ticks).queue && Run(cfg, ticks).queue[a].outTs != 0
    requires sweep.ev.SweepTimer? && Timely(cfg, ticks + [sweep], start, period)
    ensures var c := Run(cfg, ticks).queue[a];
      && i <= k < |ticks| && IsCall(ticks[i].ev, a, c.identity) && QueuedSince(cfg, ticks, i, a)
      && OnceAt(cfg, ticks, i, k, a, true)
      && (IsTold(NewlySent(Run(cfg, ticks), Run(cfg, ticks + [sweep])), c.identity, a, AllBusy) <==>
            sweep.now - ticks[i].now > cfg.inTimeout * 1000 && sweep.now - ticks[k].now <= cfg.outTimeout * 1000)
  {
    hide Step, HandedAt, RegistryOk, IsTold, Sweep;
    var s := Run(cfg, ticks);
    var c := s.queue[a];
    i := SweepsAreJust(cfg, ticks, sweep, start, period, a);
    RunKeepsCalls(cfg, ticks);
    assert c.procTs == 0 by { assert CallOk(c, s.store); }
    k :| i <= k < |ticks| && OnceAt(cfg, ticks, i, k, a, true) && ticks[k].now == c.outTs;
    var t := Run(cfg, ticks + [sweep]);
    assert (ticks + [sweep])[..|ticks|] == ticks;
    SweepStep(s, sweep);
    if IsTold(NewlySent(s, t), c.identity, a, AllBusy) {
      ToldIsDue(s, sweep.ev.order, sweep.now, a, c.identity, AllBusy);
      ToldIsDue(s, sweep.ev.order, sweep.now, a, c.identity, Verdict(cfg, ticks, i, a, sweep.now));
    }
  }
}
