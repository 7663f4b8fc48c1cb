/** Any number of brokers that forward calls to one another. */
module Network {
  import opened Messages
  import opened Tables
  import opened Steps
  import opened Replies

  // An event at one broker. A broker is known to the others by the identity of its fabric.
  datatype Move = Move(who: Id, tick: Tick)

  // What has happened at one broker
  function TicksOf(log: seq<Move>, who: Id): seq<Tick> {
    if log == [] then []
    else
      var last := log[|log| - 1];
      TicksOf(log[..|log| - 1], who) + if last.who == who then [last.tick] else []
  }

  function BrokerAt(cfgs: map<Id, Config>, log: seq<Move>, who: Id): State
    requires who in cfgs
  {
    Run(cfgs[who], TicksOf(log, who))
  }

  // The broker `from` has sent the call to the fabric `to`.
  ghost predicate HasSent(cfgs: map<Id, Config>, log: seq<Move>, from: Id, to: Id, a: ActionId, body: Value) {
    from in cfgs &&
    exists x <- BrokerAt(cfgs, log, from).sent ::
      x.kind.CallOut? && x.kind.relayed && x.to == to && x.actionid == a && x.body == body
  }

  // A log of events at the brokers of a network, in the order they happened. A CALL that arrives
  // from a fabric was sent to that broker by the broker of that identity before; all else is free.
  ghost predicate Delivered(cfgs: map<Id, Config>, log: seq<Move>) {
    log == [] ||
    var before, last := log[..|log| - 1], log[|log| - 1];
    && Delivered(cfgs, before) && last.who in cfgs
    && (forall a, body :: CarriesCall(last.tick.ev, false, a, body) ==>
          HasSent(cfgs, before, last.tick.ev.identity, last.who, a, body))
  }

  // The broker received a CALL with this id, from one of its own modules or from another fabric.
  ghost predicate Received(log: seq<Move>, who: Id, local: bool, a: ActionId) {
    exists body :: ReceivedCall(TicksOf(log, who), local, a, body)
  }

  // The broker has sent a call with this id on to another fabric.
  ghost predicate Relays(cfgs: map<Id, Config>, log: seq<Move>, who: Id, a: ActionId) {
    who in cfgs &&
    exists x <- BrokerAt(cfgs, log, who).sent :: x.kind.CallOut? && x.kind.relayed && x.actionid == a
  }

  // What a broker sends on to another fabric it had from one of its own modules.
  lemma RelaysOnlyItsOwn(cfgs: map<Id, Config>, log: seq<Move>, who: Id, a: ActionId)
    requires Relays(cfgs, log, who, a)
    ensures Received(log, who, true, a)
  {
    var sent := BrokerAt(cfgs, log, who).sent;
    var x :| x in sent && x.kind.CallOut? && x.kind.relayed && x.actionid == a;
    AnswersAreHonest(cfgs[who], TicksOf(log, who));
    var k :| 0 <= k < |sent| && sent[k] == x;
    assert Honest(TicksOf(log, who), sent[k]);
  }

  lemma {:induction false} ReceivedLater(log: seq<Move>, n: nat, who: Id, local: bool, a: ActionId)
    requires n <= |log| && Received(log[..n], who, local, a)
    ensures Received(log, who, local, a)
  {
    if n == |log| {
      assert log[..n] == log;
    } else {
      var before, last := log[..|log| - 1], log[|log| - 1];
      assert before[..n] == log[..n];
      ReceivedLater(before, n, who, local, a);
      var body :| ReceivedCall(TicksOf(before, who), local, a, body);
      var k :| 0 <= k < |TicksOf(before, who)| && CarriesCall(TicksOf(before, who)[k].ev, local, a, body);
      assert TicksOf(log, who) == TicksOf(before, who) + if last.who == who then [last.tick] else [];
      assert TicksOf(log, who)[k] == TicksOf(before, who)[k];
      assert ReceivedCall(TicksOf(log, who), local, a, body);
    }
  }

  lemma {:induction false} DeliveredBefore(cfgs: map<Id, Config>, log: seq<Move>, n: nat)
    requires Delivered(cfgs, log) && n <= |log|
    ensures Delivered(cfgs, log[..n])
  {
    if n == |log| {
      assert log[..n] == log;
    } else {
      DeliveredBefore(cfgs, log[..|log| - 1], n);
      assert log[..|log| - 1][..n] == log[..n];
    }
  }

  // A CALL that arrives from a fabric is one that this fabric had from a module of its own.
  lemma SenderHadItLocally(cfgs: map<Id, Config>, log: seq<Move>, m: nat, a: ActionId, body: Value)
    requires Delivered(cfgs, log) && m < |log| && CarriesCall(log[m].tick.ev, false, a, body)
    ensures var x := log[m].tick.ev.identity;
      HasSent(cfgs, log[..m], x, log[m].who, a, body) && Received(log, x, true, a)
  {
    var upTo, x := log[..m + 1], log[m].tick.ev.identity;
    DeliveredBefore(cfgs, log, m + 1);
    assert upTo[..|upTo| - 1] == log[..m] && upTo[|upTo| - 1] == log[m];
    assert HasSent(cfgs, log[..m], x, log[m].who, a, body);
    assert Relays(cfgs, log[..m], x, a);
    RelaysOnlyItsOwn(cfgs, log[..m], x, a);
    ReceivedLater(log, m, x, true, a);
  }

  // However many brokers there are and however their events interleave: if a call is submitted by the
  // modules of one broker only, then no other broker sends it on, and whoever receives it from a
  // fabric has it from that one.
  lemma OneHop(cfgs: map<Id, Config>, log: seq<Move>, origin: Id, a: ActionId)
    requires Delivered(cfgs, log)
    requires forall id :: Received(log, id, true, a) ==> id == origin
    ensures forall id :: Relays(cfgs, log, id, a) ==> id == origin
    ensures forall m, body | 0 <= m < |log| && CarriesCall(log[m].tick.ev, false, a, body) ::
              log[m].tick.ev.identity == origin && HasSent(cfgs, log[..m], origin, log[m].who, a, body)
  {
    forall id | Relays(cfgs, log, id, a) ensures id == origin { RelaysOnlyItsOwn(cfgs, log, id, a); }
    forall m, body | 0 <= m < |log| && CarriesCall(log[m].tick.ev, false, a, body)
      ensures log[m].tick.ev.identity == origin && HasSent(cfgs, log[..m], origin, log[m].who, a, body)
    {
      SenderHadItLocally(cfgs, log, m, a, body);
    }
  }

  // A CALL with this id arrived at broker `to` from broker `from`.
  ghost predicate Hop(log: seq<Move>, from: Id, to: Id, a: ActionId) {
    exists m, body | 0 <= m < |log| ::
      CarriesCall(log[m].tick.ev, false, a, body) && log[m].tick.ev.identity == from && log[m].who == to
  }

  // So a chain of deliveries between different brokers visits at most two of them.
  lemma AtMostTwoFabrics(cfgs: map<Id, Config>, log: seq<Move>, origin: Id, a: ActionId, path: seq<Id>)
    requires Delivered(cfgs, log)
    requires forall id :: Received(log, id, true, a) ==> id == origin
    requires forall k, j | 0 <= k < j < |path| :: path[k] != path[j]
    requires forall k | 0 < k < |path| :: Hop(log, path[k - 1], path[k], a)
    ensures |path| <= 2
  {
    if |path| > 2 {
      HopStartsAtOrigin(cfgs, log, origin, a, path[1 - 1], path[1]);
      HopStartsAtOrigin(cfgs, log, origin, a, path[2 - 1], path[2]);
    }
  }

  lemma HopStartsAtOrigin(cfgs: map<Id, Config>, log: seq<Move>, origin: Id, a: ActionId, from: Id, to: Id)
    requires Delivered(cfgs, log) && Hop(log, from, to, a)
    requires forall id :: Received(log, id, true, a) ==> id == origin
    ensures from == origin
  {
    OneHop(cfgs, log, origin, a);
  }
}
