/** The tables of the broker (proxy_t) and the primitive updates its handlers are built from.
    An interface is an object that queued calls point to, so it is kept by reference: `store`
    holds every interface ever allocated and `registry` is the list proxy->ifaces. */
module Tables {
  import opened Wrappers
  import opened Text
  import opened Messages

  type Id = string         // a ZMQ identity as text
  type ActionId = string
  type Ref = nat           // address of an interface
  type Time = t: int | 0 < t < 0x1_0000_0000_0000_0000 witness 1   // a reading of the clock, in microseconds

  const LOCAL_ID_LENGTH := 10   // longer identities are fabric endpoints

  // Which ids placeCall visits when it looks for an idle module. The loop starts at the
  // first local id and then advances the cursor of the *global* list.
  datatype Walk = AsWritten | Intended

  datatype Config = Config(walk: Walk, debug: bool, inTimeout: nat, outTimeout: nat, processTimeout: nat)

  datatype ModState = Guest | Idle | Busy | Stopping | Restarting

  datatype Module = Module(identity: Id, name: string, pid: int, state: ModState, needRestart: bool)

  datatype Iface = Iface(mod: string, func: string, ver: U64, locals: seq<Id>, globals: seq<Id>)

  // A message_t that is a call. A timestamp of 0 means "not yet"; `globals` is the list copied
  // from the interface, [] standing for both NULL and empty.
  datatype Call = Call(
    identity: Id, actionid: ActionId, local: bool, body: Value,
    mod: string, func: string, ver: U64,
    inTs: U64, outTs: U64, procTs: U64,
    routedVia: Option<Id>, iface: Option<Ref>, globals: seq<Id>)

  // Everything handed to send_message; `reached` is false when the fabric is not in the list.
  datatype Kind = CallOut(foreign: bool, relayed: bool) | Answer | Introduced | Ask | IfaceListOut
  datatype Sent = Sent(to: Id, reached: bool, kind: Kind, actionid: ActionId, body: Value)

  // Queue entries the handlers discard without sending anything
  datatype Why = FabricGone | FabricToFabric | DuplicateId
  datatype Drop = Drop(actionid: ActionId, caller: Id, why: Why)

  // Commands to the process manager
  datatype Command = Restart(pid: int) | Register(pid: int, name: string) | CheckPid(pid: int)

  datatype State = State(
    cfg: Config,
    up: bool,                       // false once a null pointer has been dereferenced
    modules: map<Id, Module>,
    fabs: map<Id, bool>,            // the alive flag of each known fabric
    store: seq<Iface>,
    registry: seq<Ref>,
    queue: map<ActionId, Call>,
    sent: seq<Sent>,
    commands: seq<Command>,
    dropped: seq<Drop>)

  function Init(cfg: Config): State {
    State(cfg, true, map[], map[], [], [], map[], [], [], [])
  }

  function Crash(s: State): State { s.(up := false) }

  function At(store: seq<Iface>, r: Ref): Iface {
    if r < |store| then store[r] else Iface("", "", 0, [], [])
  }

  function Send(s: State, to: Id, kind: Kind, actionid: ActionId, body: Value): State {
    s.(sent := s.sent + [Sent(to, |to| <= LOCAL_ID_LENGTH || to in s.fabs, kind, actionid, body)])
  }

  function Tell(s: State, command: Command): State {
    s.(commands := s.commands + [command])
  }

  function Enqueue(s: State, c: Call): State {
    s.(queue := s.queue[c.actionid := c])
  }

  function Unqueue(s: State, a: ActionId): State {
    s.(queue := s.queue - {a})
  }

  function Discard(s: State, a: ActionId, caller: Id, why: Why): State {
    s.(dropped := s.dropped + [Drop(a, caller, why)])
  }

  function SetState(s: State, id: Id, st: ModState): State
    requires id in s.modules
  {
    s.(modules := s.modules[id := s.modules[id].(state := st)])
  }

  // ---------- interface.c ----------

  // zlist_remove: the first occurrence
  function Without(ids: seq<Id>, id: Id): seq<Id> {
    if ids == [] then []
    else if ids[0] == id then ids[1..]
    else [ids[0]] + Without(ids[1..], id)
  }

  function Appended(ids: seq<Id>, id: Id): seq<Id> {
    if id in ids then ids else ids + [id]
  }

  function PurgeIface(i: Iface, id: Id): Iface {
    i.(locals := Without(i.locals, id), globals := Without(i.globals, id))
  }

  predicate EmptyIface(i: Iface) { i.locals == [] && i.globals == [] }

  function PurgeStore(store: seq<Iface>, registry: seq<Ref>, id: Id): (r: seq<Iface>)
    ensures |r| == |store|
    ensures forall k | 0 <= k < |store| ::
      r[k] == if k in registry then PurgeIface(store[k], id) else store[k]
  {
    seq(|store|, k requires 0 <= k < |store| =>
      if k in registry then PurgeIface(store[k], id) else store[k])
  }

  function Live(registry: seq<Ref>, store: seq<Iface>): seq<Ref> {
    if registry == [] then []
    else (if EmptyIface(At(store, registry[0])) then [] else [registry[0]]) + Live(registry[1..], store)
  }

  // iface_remove: forget an identity everywhere, and the interfaces it leaves empty
  function IfaceRemove(s: State, id: Id): State {
    var store := PurgeStore(s.store, s.registry, id);
    s.(store := store, registry := Live(s.registry, store))
  }

  predicate Serves(i: Iface, mod: string, func: string, ver: U64) {
    i.mod == mod && i.func == func && i.ver >= ver
  }

  // check_interface: the first match in list order
  function CheckFrom(store: seq<Iface>, registry: seq<Ref>, mod: string, func: string, ver: U64): Option<Ref> {
    if registry == [] then None
    else if Serves(At(store, registry[0]), mod, func, ver) then Some(registry[0])
    else CheckFrom(store, registry[1..], mod, func, ver)
  }

  function CheckInterface(s: State, mod: string, func: string, ver: U64): Option<Ref> {
    CheckFrom(s.store, s.registry, mod, func, ver)
  }

  function AppendId(i: Iface, id: Id, asLocal: bool): Iface {
    if asLocal then i.(locals := Appended(i.locals, id)) else i.(globals := Appended(i.globals, id))
  }

  // Find or create the interface for one provided function and add the provider to it.
  // iface_new refuses version 0 and its NULL is then dereferenced.
  function Provide(s: State, mod: string, func: string, ver: U64, id: Id, asLocal: bool): State {
    match CheckInterface(s, mod, func, ver)
    case Some(r) =>
      if r < |s.store| then s.(store := s.store[r := AppendId(s.store[r], id, asLocal)]) else s
    case None =>
      if ver == 0 then Crash(s)
      else s.(store := s.store + [AppendId(Iface(mod, func, ver, [], []), id, asLocal)],
              registry := s.registry + [|s.store|])
  }
}
