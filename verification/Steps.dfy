/** What each handler of modbusd.c does to the tables. Orders in which czmq walks a hash
    table are not fixed, so every walk takes its order as an argument. */
module Steps {
  import opened Wrappers
  import opened Text
  import opened Messages
  import opened Tables

  // ---------- placeCall ----------

  // st: the tables after the call was looked at; call: the message as updated; rc: the C result
  datatype Placed = Placed(st: State, call: Call, rc: int)

  // The walk over candidate modules: the last idle one wins, and an id that is
  // not a registered module is a null dereference.
  datatype Walked = Walked(found: Option<Id>) | Fault

  function WalkIds(modules: map<Id, Module>, ids: seq<Id>, found: Option<Id>): Walked {
    if ids == [] then Walked(found)
    else if ids[0] !in modules then Fault
    else WalkIds(modules, ids[1..], if modules[ids[0]].state.Idle? then Some(ids[0]) else found)
  }

  // The ids placeCall looks at. As written the walk starts at the first local id and then asks the list
  // of global ids for its next item. That list's cursor is null whenever the walk starts, so its next item
  // is the first: the loops at modbusd.c:221-226 and :239-251 run to the end of the list, and so does the
  // iface_print (interface.c:122-141) that follows each search in it (modbusd.c:804-809).
  function Candidates(walk: Walk, i: Iface): seq<Id> {
    match walk
    case Intended => i.locals
    case AsWritten => if i.locals == [] then [] else [i.locals[0]] + i.globals
  }

  // The cursor of the copied list is on its head, and zlist_next is called at most once:
  // the second fabric if there is one, else the first.
  function NextGlobal(globals: seq<Id>): Id
    requires globals != []
  {
    if |globals| >= 2 then globals[1] else globals[0]
  }

  function Dispatch(s: State, c: Call, to: Id, now: Time): Placed {
    if to in s.modules && s.modules[to].state.Idle? then
      Placed(Send(SetState(s, to, Busy), to, CallOut(!c.local, false), c.actionid, c.body),
             c.(routedVia := Some(to), procTs := now), 0)
    else
      Placed(Send(s, to, CallOut(!c.local, true), c.actionid, c.body),
             c.(routedVia := Some(to), outTs := now), 0)
  }

  function Bind(s: State, c: Call): Call {
    if c.iface.Some? then c
    else
      match CheckInterface(s, c.mod, c.func, c.ver)
      case None => c
      case Some(r) =>
        var b := c.(iface := Some(r));
        if c.local then b.(globals := At(s.store, r).globals) else b
  }

  // Where a bound call can go now
  datatype Target = Nowhere | To(id: Id) | NullModule

  function Route(s: State, c: Call, i: Iface): Target {
    if i.locals != [] then
      match WalkIds(s.modules, Candidates(s.cfg.walk, i), None)
      case Fault => NullModule
      case Walked(None) => Nowhere
      case Walked(Some(id)) => To(id)
    else if c.local && c.globals != [] then To(NextGlobal(c.globals))
    else Nowhere
  }

  function PlaceBound(s: State, c: Call, t: Target, now: Time): Placed {
    match t
    case Nowhere => Placed(s, c, 0)
    case To(id) => Dispatch(s, c, id, now)
    case NullModule => Placed(Crash(s), c, 0)
  }

  function PlaceCall(s: State, c: Call, now: Time): Placed {
    if c.routedVia.Some? then Placed(s, c, 0)
    else
      var b := Bind(s, c);
      if b.iface.None? then Placed(s, b, -1)
      else PlaceBound(s, b, Route(s, b, At(s.store, b.iface.value)), now)
  }

  // placeCall on a message that is in the queue
  function PlaceQueued(s: State, a: ActionId, now: Time): Placed
    requires a in s.queue
  {
    var p := PlaceCall(s, s.queue[a], now);
    p.(st := p.st.(queue := p.st.queue[a := p.call]))
  }

  // zhash_foreach(proxy->queue, placeCall): stops at the first non-zero result
  function Drain(s: State, order: seq<ActionId>, now: Time): State
    decreases |order|
  {
    if order == [] || !s.up then s
    else if order[0] !in s.queue then Drain(s, order[1..], now)
    else
      var p := PlaceQueued(s, order[0], now);
      if p.rc != 0 then p.st else Drain(p.st, order[1..], now)
  }

  // ---------- calls ----------

  datatype Msg = Msg(identity: Id, local: bool, actionid: ActionId, body: Value)

  function NewCall(m: Msg, mod: string, func: string, ver: U64, now: Time): Call {
    Call(m.identity, m.actionid, m.local, m.body, mod, func, ver, now, 0, 0, None, None, [])
  }

  function Refuse(s: State, m: Msg, r: Reason): State {
    Send(s, m.identity, Answer, m.actionid, Raised(m.actionid, r))
  }

  // After placeCall: a call nobody serves, or one from a fabric that no module can take at once,
  // is refused; otherwise it joins the queue, unless its id is taken (zhash_insert fails).
  function Admit(m: Msg, p: Placed): State {
    if !p.st.up then p.st
    else if p.rc == -1 || (!m.local && p.call.routedVia.None?) then Refuse(p.st, m, NoModules)
    else if m.actionid in p.st.queue then Discard(p.st, m.actionid, m.identity, DuplicateId)
    else Enqueue(p.st, p.call)
  }

  function CallOf(m: Msg, now: Time): Option<Call> {
    var ver := BodyInt(m.body, "version");
    match (BodyString(m.body, "module"), BodyString(m.body, "function"))
    case (Some(mod), Some(func)) => if ver == 0 then None else Some(NewCall(m, mod, func, ver, now))
    case _ => None
  }

  function ProcessCall(s: State, m: Msg, now: Time): State {
    match CallOf(m, now)
    case Some(c) => Admit(m, PlaceCall(s, c, now))
    case None => Refuse(s, m, WrongCall)
  }

  // ---------- results and exceptions ----------

  // Put the module that answered back to work
  function Release(s: State, id: Id, order: seq<ActionId>, now: Time): State {
    if id !in s.modules then s
    else if s.modules[id].needRestart then Tell(s, Restart(s.modules[id].pid))
    else Drain(SetState(s, id, Idle), order, now)
  }

  function PassOn(s: State, c: Call, m: Msg): State {
    Send(s, c.identity, Answer, m.actionid, m.body)
  }

  // A local module answers c: to the calling module, or to the calling fabric if it is still
  // known. The call is forgotten and the module that answered goes back to work.
  function LocalReply(s: State, c: Call, m: Msg, order: seq<ActionId>, now: Time): State {
    Release(Finish(s, c, m), m.identity, order, now)
  }

  function Finish(s: State, c: Call, m: Msg): State {
    var s1 := if c.local || c.identity in s.fabs then PassOn(s, c, m)
      else Discard(s, m.actionid, c.identity, FabricGone);
    Unqueue(s1, m.actionid)
  }

  // Another fabric answers c. An answer to a call that came from a fabric is an invalid state.
  function FabricReply(s: State, c: Call, m: Msg): State {
    var s1 := if c.local then PassOn(s, c, m) else Discard(s, m.actionid, c.identity, FabricToFabric);
    Unqueue(s1, m.actionid)
  }

  function MergeList(s: State, fab: Id, paths: seq<string>): State
    decreases |paths|
  {
    if paths == [] || !s.up then s
    else
      var s1 := match ParsePath(paths[0])
        case Some((mod, func, ver)) => Provide(s, mod, func, ver, fab, false)
        case None => s;
      MergeList(s1, fab, paths[1..])
  }

  // A result nobody waits for is taken for an interface list; an unknown sender is dereferenced
  function ProcessIfaceList(s: State, m: Msg): State {
    match GetIfaceList(m.body)
    case None => s
    case Some(paths) => if m.identity in s.fabs then MergeList(s, m.identity, paths) else Crash(s)
  }

  function ProcessResult(s: State, m: Msg, order: seq<ActionId>, now: Time): State {
    if m.actionid !in s.queue then ProcessIfaceList(s, m)
    else
      var c := s.queue[m.actionid];
      if m.local then LocalReply(s, c, m, order, now) else FabricReply(s, c, m)
  }

  function ProcessException(s: State, m: Msg, order: seq<ActionId>, now: Time): State {
    if m.actionid !in s.queue then s
    else
      var c := s.queue[m.actionid];
      if m.local then
        // an exception for a module from an unknown module is ignored
        if c.local && m.identity !in s.modules then s else LocalReply(s, c, m, order, now)
      else if c.local && ToInt(BodyInt(m.body, "exception")) == MODULES_BUSY then
        // "replacement": the incoming message is reset, not the stored one, before placeCall
        PlaceQueued(s, m.actionid, now).st
      else FabricReply(s, c, m)
  }

  // ---------- introduce ----------

  function ProvideAll(s: State, id: Id, name: string, versions: map<string, U64>, keys: seq<string>): State
    decreases |keys|
  {
    if keys == [] || !s.up then s
    else
      var s1 := if keys[0] in versions then Provide(s, name, keys[0], versions[keys[0]], id, true) else s;
      ProvideAll(s1, id, name, versions, keys[1..])
  }

  // An introduction with a name and a pid is put to the process manager.
  function AskPid(s: State, m: Msg): State {
    if BodyString(m.body, "name").Some? && GetPid(m.body) != 0 then Tell(s, CheckPid(GetPid(m.body))) else s
  }

  function AddModule(s: State, m: Msg, name: string): State {
    var s1 := Tell(s, Register(GetPid(m.body), name));
    var s2 := if m.identity in s1.modules then s1   // zhash_insert refuses a second entry
      else s1.(modules := s1.modules[m.identity := Module(m.identity, name, GetPid(m.body), Idle, false)]);
    Send(s2, m.identity, Introduced, m.actionid, Response("ok", m.actionid))
  }

  // known: the frame read back from the process manager was not "no"
  function FinishIntroduce(s: State, m: Msg, known: bool, keys: seq<string>): State {
    match (BodyString(m.body, "name"), GetProvides(m.body))
    case (Some(name), Some(versions)) =>
      if GetPid(m.body) == 0 || (!s.cfg.debug && !known) || versions == map[] then s
      else
        var s1 := ProvideAll(s, m.identity, name, versions, keys);
        if s1.up then AddModule(s1, m, name) else s1
    case _ => s
  }

  function ProcessIntroduce(s: State, m: Msg, known: bool, keys: seq<string>): State {
    FinishIntroduce(AskPid(s, m), m, known, keys)
  }

  // ---------- requests ----------

  function LocalPath(i: Iface): seq<string> {
    if i.locals != [] then [FormatPath(i.mod, i.func, i.ver)] else []
  }

  // Only interfaces with local providers are announced
  function LocalPaths(store: seq<Iface>, registry: seq<Ref>): seq<string> {
    if registry == [] then []
    else LocalPath(At(store, registry[0])) + LocalPaths(store, registry[1..])
  }

  function ProcessRequest(s: State, m: Msg): State {
    if BodyString(m.body, "command") == Some("IfaceList") && m.identity in s.fabs then
      Send(s, m.identity, IfaceListOut, m.actionid, IfaceListResponse(LocalPaths(s.store, s.registry), m.actionid))
    else s
  }

  // ---------- the timeout sweep ----------

  // uint64 subtraction
  function Elapsed(now: Time, since: U64): U64 { ToU64(now - since) }

  predicate InExpired(cfg: Config, c: Call, now: Time) {
    Elapsed(now, c.inTs) > cfg.inTimeout * 1000 && c.procTs == 0
  }

  predicate OutExpired(cfg: Config, c: Call, now: Time) {
    c.outTs != 0 && Elapsed(now, c.outTs) > cfg.outTimeout * 1000 && c.routedVia.Some?
  }

  predicate ProcessExpired(cfg: Config, c: Call, now: Time) {
    c.procTs != 0 && Elapsed(now, c.procTs) > cfg.processTimeout * 1000 && c.routedVia.Some?
  }

  predicate Expired(cfg: Config, c: Call, now: Time) {
    InExpired(cfg, c, now) || OutExpired(cfg, c, now) || ProcessExpired(cfg, c, now)
  }

  function TimeoutReason(cfg: Config, c: Call, now: Time): Reason {
    if ProcessExpired(cfg, c, now) then ProcessTimeout
    else if OutExpired(cfg, c, now) then GlobalTimeout
    else AllBusy
  }

  function RemoveModule(s: State, id: Id): State {
    var s1 := IfaceRemove(s, id);
    s1.(modules := s1.modules - {id})
  }

  // A module that let a call time out is assumed stuck
  function GiveUp(s: State, id: Id): State {
    if id in s.modules && !s.cfg.debug
    then RemoveModule(Tell(s, Restart(s.modules[id].pid)), id)
    else s
  }

  function SweepItem(s: State, a: ActionId, now: Time): State {
    if a !in s.queue || !Expired(s.cfg, s.queue[a], now) then s
    else
      var c := s.queue[a];
      var s1 := if ProcessExpired(s.cfg, c, now) then GiveUp(s, c.routedVia.value) else s;
      Unqueue(Send(s1, c.identity, Answer, c.actionid, Raised(c.actionid, TimeoutReason(s.cfg, c, now))), a)
  }

  function Sweep(s: State, order: seq<ActionId>, now: Time): State
    decreases |order|
  {
    if order == [] then s else Sweep(SweepItem(s, order[0], now), order[1..], now)
  }

  // ---------- the heartbeat poll ----------

  // A fabric the poll comes to, and the action id made for it
  datatype Polled = Polled(fab: Id, uuid: ActionId)

  function PollItem(s: State, q: Polled): State {
    if q.fab !in s.fabs then s
    else if s.fabs[q.fab] then
      var s1 := Send(s, q.fab, Ask, q.uuid, IfaceListRequest(q.uuid));
      s1.(fabs := s1.fabs[q.fab := false])
    else
      var s1 := IfaceRemove(s, q.fab);
      s1.(fabs := s1.fabs - {q.fab})
  }

  function Poll(s: State, order: seq<Polled>): State
    decreases |order|
  {
    if order == [] then s else Poll(PollItem(s, order[0]), order[1..])
  }

  // ---------- process manager events ----------

  // A two-frame message from the process manager. The text of a check_pid answer is no number,
  // so atoi makes its pid 0.
  datatype Frame = Removed(pid: int) | RestartAsked(pid: int) | PidAnswer(known: bool)

  function FramePid(f: Frame): int {
    if f.PidAnswer? then 0 else f.pid
  }

  function FirstWithPid(modules: map<Id, Module>, order: seq<Id>, pid: int): (hit: Option<Id>)
    ensures hit.Some? ==> hit.value in modules && modules[hit.value].pid == pid
  {
    if order == [] then None
    else if order[0] in modules && modules[order[0]].pid == pid then Some(order[0])
    else FirstWithPid(modules, order[1..], pid)
  }

  // procman_checkpid "restart": at once if idle, else after the answer it owes
  function RestartModule(s: State, id: Id): State
    requires id in s.modules
  {
    var mod := s.modules[id];
    if mod.state.Idle? then Tell(SetState(s, id, Restarting), Restart(mod.pid))
    else s.(modules := s.modules[id := mod.(needRestart := true)])
  }

  function OnProcman(s: State, f: Frame, order: seq<Id>): State {
    if FramePid(f) == 0 then s
    else
      match FirstWithPid(s.modules, order, FramePid(f))
      case None => s
      case Some(id) => if f.Removed? then RemoveModule(s, id) else RestartModule(s, id)
  }

  // ---------- events ----------

  datatype Event =
    | Arrive(local: bool, identity: Id, body: Value,
             known: bool, keys: seq<string>, order: seq<ActionId>)   // a message on either socket
    | SweepTimer(order: seq<ActionId>)
    | PollTimer(polled: seq<Polled>)
    | Beacon(identity: Id, connected: bool)
    | FromProcman(frame: Frame, modOrder: seq<Id>)

  // message_fromzmq
  function Parse(local: bool, identity: Id, body: Value): Option<(Verb, Msg)> {
    if !body.MapV? then None
    else
      match (CheckCommand(body), CheckActionid(body))
      case (Some(verb), Some(a)) => Some((verb, Msg(identity, local, a, body)))
      case _ => None
  }

  function MarkAlive(s: State, id: Id): State {
    if id in s.fabs then s.(fabs := s.fabs[id := true]) else s
  }

  function ProcessCommand(s: State, verb: Verb, m: Msg, e: Event, now: Time): State
    requires e.Arrive?
  {
    match verb
    case VRequest => ProcessRequest(s, m)
    case VResult => ProcessResult(s, m, e.order, now)
    case VCall => ProcessCall(s, m, now)
    case VException => ProcessException(s, m, e.order, now)
    case VIntroduce => ProcessIntroduce(s, m, e.known, e.keys)
    case _ => s
  }

  function OnMessage(s: State, e: Event, now: Time): State
    requires e.Arrive?
  {
    match Parse(e.local, e.identity, e.body)
    case None => s
    case Some((verb, m)) =>
      ProcessCommand(if e.local then s else MarkAlive(s, e.identity), verb, m, e, now)
  }

  function OnBeacon(s: State, id: Id, connected: bool): State {
    if id in s.fabs || !connected then s else s.(fabs := s.fabs[id := true])
  }

  function Step(s: State, e: Event, now: Time): State {
    if !s.up then s
    else
      match e
      case Arrive(_, _, _, _, _, _) => OnMessage(s, e, now)
      case SweepTimer(order) => Sweep(s, order, now)
      case PollTimer(order) => Poll(s, order)
      case Beacon(id, connected) => OnBeacon(s, id, connected)
      case FromProcman(f, order) => OnProcman(s, f, order)
  }

  datatype Tick = Tick(now: Time, ev: Event)

  function Run(cfg: Config, ticks: seq<Tick>): State {
    if ticks == [] then Init(cfg)
    else
      var last := ticks[|ticks| - 1];
      Step(Run(cfg, ticks[..|ticks| - 1]), last.ev, last.now)
  }
}
