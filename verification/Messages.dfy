/** Messages as unpacked msgpack trees: the lookups of modbus_helper.c and the
    builders and getters of message.c. */
module Messages {
  import opened Wrappers
  import opened Text

  datatype Value =
    | Raw(s: string)
    | PosInt(n: U64)
    | NegInt(i: int)
    | MapV(entries: seq<Entry>)
    | ArrV(items: seq<Value>)
    | Other

  datatype Entry = Entry(key: string, val: Value)

  // ---------- modbus_helper.c ----------

  // m_find_map compares only as many bytes as the message's own key has, so an
  // entry whose key is any prefix of the wanted key (even "") is taken.
  function FindEntry(es: seq<Entry>, key: string): Option<Value> {
    if es == [] then None
    else if es[0].key <= key then Some(es[0].val)
    else FindEntry(es[1..], key)
  }

  function FindMap(v: Value, key: string): Option<Value> {
    if v.MapV? then FindEntry(v.entries, key) else None
  }

  // m_get_string: exact key, searching nested maps depth first
  function GetStringFrom(es: seq<Entry>, key: string): Option<string> {
    if es == [] then None
    else if es[0].key == key && es[0].val.Raw? then Some(es[0].val.s)
    else if es[0].val.MapV? then
      var inner := GetStringFrom(es[0].val.entries, key);
      if inner.Some? then inner else GetStringFrom(es[1..], key)
    else GetStringFrom(es[1..], key)
  }

  function GetString(v: Value, key: string): Option<string> {
    if v.MapV? then GetStringFrom(v.entries, key) else None
  }

  // m_get_int: the value found in a nested map is thrown away
  function GetIntFrom(es: seq<Entry>, key: string): U64 {
    if es == [] then 0
    else if es[0].key == key && es[0].val.PosInt? then es[0].val.n
    else if es[0].key == key && es[0].val.NegInt? then ToU64(es[0].val.i)
    else GetIntFrom(es[1..], key)
  }

  function GetInt(v: Value, key: string): U64 {
    if v.MapV? then GetIntFrom(v.entries, key) else 0
  }

  // m_unpack_array into a list of strings
  function UnpackStrings(items: seq<Value>): seq<string> {
    if items == [] then []
    else (if items[0].Raw? then [items[0].s] else []) + UnpackStrings(items[1..])
  }

  // m_unpack_map into a hash of versions; zhash_insert keeps the first of two equal keys
  function UnpackVersions(es: seq<Entry>): map<string, U64> {
    if es == [] then map[]
    else
      var rest := UnpackVersions(es[1..]);
      match es[0].val
      case PosInt(n) => rest[es[0].key := n]
      case NegInt(i) => rest[es[0].key := ToU64(i)]
      case _ => rest
  }

  // ---------- message.c: getters ----------

  datatype Verb = VIntroduce | VPing | VPong | VStop | VCall | VRequest | VException | VResult

  function VerbOf(command: string): Option<Verb> {
    match command
    case "introduce" => Some(VIntroduce)
    case "ping" => Some(VPing)
    case "pong" => Some(VPong)
    case "stop" => Some(VStop)
    case "call" => Some(VCall)
    case "request" => Some(VRequest)
    case "exception" => Some(VException)
    case "result" => Some(VResult)
    case _ => None
  }

  // message_check_command: only the whitelisted commands pass
  function CheckCommand(tree: Value): Option<Verb> {
    match GetString(tree, "command")
    case Some(c) => VerbOf(c)
    case None => None
  }

  function CheckActionid(tree: Value): Option<string> {
    match GetString(tree, "actionid")
    case Some(a) => if |a| < 5 then None else Some(a)
    case None => None
  }

  function BodyString(tree: Value, key: string): Option<string> {
    match FindMap(tree, "body")
    case Some(body) => GetString(body, key)
    case None => None
  }

  function BodyInt(tree: Value, key: string): U64 {
    match FindMap(tree, "body")
    case Some(body) => GetInt(body, key)
    case None => 0
  }

  // (pid_t) of a uint64_t
  function GetPid(tree: Value): int {
    ToInt(BodyInt(tree, "pid"))
  }

  function GetProvides(tree: Value): Option<map<string, U64>> {
    match FindMap(tree, "body")
    case None => None
    case Some(body) =>
      match FindMap(body, "provides")
      case None => None
      case Some(p) => Some(if p.MapV? then UnpackVersions(p.entries) else map[])
  }

  function GetIfaceList(tree: Value): Option<seq<string>> {
    match FindMap(tree, "body")
    case None => None
    case Some(body) =>
      match FindMap(body, "result")
      case None => None
      case Some(result) =>
        match FindMap(result, "IfaceList")
        case None => None
        case Some(list) => Some(if list.ArrV? then UnpackStrings(list.items) else [])
  }

  // ---------- message.c: builders ----------

  function Envelope(command: string, body: Value, actionid: string): Value {
    MapV([Entry("command", Raw(command)), Entry("body", body), Entry("actionid", Raw(actionid))])
  }

  function Exception(actionid: string, text: string, code: U64): Value {
    Envelope("exception", MapV([Entry("string", Raw(text)), Entry("exception", PosInt(code))]), actionid)
  }

  // The exceptions the broker itself raises
  datatype Reason = WrongCall | NoModules | AllBusy | ProcessTimeout | GlobalTimeout

  const MODULES_BUSY: U64 := 111

  function Code(r: Reason): U64 {
    match r
    case WrongCall => 21
    case NoModules => MODULES_BUSY
    case AllBusy => MODULES_BUSY
    case ProcessTimeout => 112
    case GlobalTimeout => 113
  }

  function Explanation(r: Reason): string {
    match r
    case WrongCall => "Wrong CALL structure"
    case NoModules => "No modules found"
    case AllBusy => "All modules are busy"
    case ProcessTimeout => "Process timeout"
    case GlobalTimeout => "Global fabric not answered in time"
  }

  function Raised(actionid: string, r: Reason): Value {
    Exception(actionid, Explanation(r), Code(r))
  }

  function Response(data: string, actionid: string): Value {
    Envelope("result",
      MapV([Entry("result", MapV([Entry("introduce", Raw(data))])), Entry("seqno", PosInt(0))]), actionid)
  }

  // What a module sends to introduce itself, and a call
  function Introduction(name: string, pid: U64, offers: seq<Entry>, actionid: string): Value {
    Envelope("introduce",
      MapV([Entry("pid", PosInt(pid)), Entry("name", Raw(name)), Entry("provides", MapV(offers))]), actionid)
  }

  function CallMessage(mod: string, func: string, ver: U64, actionid: string): Value {
    Envelope("call",
      MapV([Entry("module", Raw(mod)), Entry("function", Raw(func)), Entry("version", PosInt(ver))]), actionid)
  }

  function IfaceListRequest(actionid: string): Value {
    Envelope("request", MapV([Entry("command", Raw("IfaceList"))]), actionid)
  }

  function PackStrings(paths: seq<string>): seq<Value> {
    if paths == [] then [] else [Raw(paths[0])] + PackStrings(paths[1..])
  }

  function IfaceListResponse(paths: seq<string>, actionid: string): Value {
    Envelope("result",
      MapV([Entry("result", MapV([Entry("IfaceList", ArrV(PackStrings(paths)))])), Entry("seqno", PosInt(0))]),
      actionid)
  }

  // sprintf(iface_path, "%s:%s:%ld", mod, func, ver)
  function FormatPath(mod: string, func: string, ver: U64): string {
    mod + ":" + func + ":" + PrintLong(ver)
  }

  // A name that a path can carry
  predicate PrintableName(name: string) { name != [] && ':' !in name }

  // strtok(path, ":") three times; fewer than three tokens is "unknown interface"
  function ParsePath(path: string): Option<(string, string, U64)> {
    var ts := Tokens(path, ':');
    if |ts| < 3 then None else Some((ts[0], ts[1], ToU64(Atoi(ts[2]))))
  }

  // ---------- round trips ----------

  lemma {:induction false} UnpackPacked(paths: seq<string>)
    ensures UnpackStrings(PackStrings(paths)) == paths
  {
    if paths != [] {
      UnpackPacked(paths[1..]);
      assert PackStrings(paths)[1..] == PackStrings(paths[1..]);
    }
  }

  // Whatever the envelope's body is, the top-level command wins, and the
  // top-level actionid wins as long as the body carries none.
  lemma EnvelopeHeader(command: string, body: Value, actionid: string)
    ensures GetString(Envelope(command, body, actionid), "command") == Some(command)
    ensures GetString(body, "actionid").None? ==>
      GetString(Envelope(command, body, actionid), "actionid") == Some(actionid)
    ensures FindMap(Envelope(command, body, actionid), "body") == Some(body)
  {
    var es := Envelope(command, body, actionid).entries;
    assert es[1..] == [es[1], es[2]] && es[1..][1..] == [es[2]];
    assert GetStringFrom([es[2]], "actionid") == Some(actionid);
    assert GetStringFrom(es[1..], "actionid") ==
      if GetString(body, "actionid").Some? then GetString(body, "actionid") else Some(actionid);
    assert "command"[0] == 'c' && "body"[0] == 'b';
    assert FindEntry(es[1..], "body") == Some(body);
  }

  lemma ReadIfaceListResponse(paths: seq<string>, actionid: string)
    ensures var tree := IfaceListResponse(paths, actionid);
      && CheckCommand(tree) == Some(VResult)
      && CheckActionid(tree) == (if |actionid| < 5 then None else Some(actionid))
      && GetIfaceList(tree) == Some(paths)
  {
    var list := MapV([Entry("IfaceList", ArrV(PackStrings(paths)))]);
    var body := MapV([Entry("result", list), Entry("seqno", PosInt(0))]);
    assert body.entries[1..] == [Entry("seqno", PosInt(0))];
    var inner := list.entries;
    assert inner[1..] == [] && GetStringFrom(inner[1..], "actionid").None?;
    assert inner[0].val.ArrV?;
    assert GetString(list, "actionid").None?;
    assert GetStringFrom(body.entries[1..], "actionid").None?;
    assert GetString(body, "actionid").None?;
    EnvelopeHeader("result", body, actionid);
    assert FindMap(body, "result") == Some(list);
    UnpackPacked(paths);
  }

  lemma ReadIfaceListRequest(actionid: string)
    ensures var tree := IfaceListRequest(actionid);
      && CheckCommand(tree) == Some(VRequest)
      && CheckActionid(tree) == (if |actionid| < 5 then None else Some(actionid))
      && BodyString(tree, "command") == Some("IfaceList")
  {
    var body := MapV([Entry("command", Raw("IfaceList"))]);
    assert GetString(body, "actionid").None?;
    EnvelopeHeader("request", body, actionid);
  }

  lemma ReadException(actionid: string, text: string, code: U64)
    ensures var tree := Exception(actionid, text, code);
      && CheckCommand(tree) == Some(VException)
      && CheckActionid(tree) == (if |actionid| < 5 then None else Some(actionid))
      && BodyInt(tree, "exception") == code
      && BodyString(tree, "string") == Some(text)
  {
    var body := MapV([Entry("string", Raw(text)), Entry("exception", PosInt(code))]);
    assert body.entries[1..] == [Entry("exception", PosInt(code))];
    assert GetIntFrom(body.entries[1..], "exception") == code;
    assert GetStringFrom(body.entries[1..], "actionid").None?;
    assert GetString(body, "actionid").None?;
    EnvelopeHeader("exception", body, actionid);
  }

  predicate IsInteger(v: Value) { v.PosInt? || v.NegInt? }

  lemma {:induction false} NoStringInIntegers(es: seq<Entry>, key: string)
    requires forall en <- es :: IsInteger(en.val)
    ensures GetStringFrom(es, key).None?
  {
    if es != [] { NoStringInIntegers(es[1..], key); }
  }

  lemma ReadIntroduction(name: string, pid: U64, offers: seq<Entry>, actionid: string)
    requires forall en <- offers :: IsInteger(en.val)
    ensures var tree := Introduction(name, pid, offers, actionid);
      && CheckCommand(tree) == Some(VIntroduce)
      && CheckActionid(tree) == (if |actionid| < 5 then None else Some(actionid))
      && BodyString(tree, "name") == Some(name) && GetPid(tree) == ToInt(pid)
      && ProvidedEntries(tree) == Some(offers)
  {
    var es := [Entry("pid", PosInt(pid)), Entry("name", Raw(name)), Entry("provides", MapV(offers))];
    var body := MapV(es);
    assert es[1..] == [Entry("name", Raw(name)), Entry("provides", MapV(offers))];
    assert es[1..][1..] == [Entry("provides", MapV(offers))];
    NoStringInIntegers(offers, "actionid");
    assert GetStringFrom(es[1..][1..], "actionid").None?;
    assert GetStringFrom(es[1..], "actionid").None?;
    assert GetString(body, "actionid").None?;
    assert GetStringFrom(es[1..], "name") == Some(name);
    assert "pid"[1] != "provides"[1] && "name"[0] != "provides"[0];
    assert FindEntry(es[1..][1..], "provides") == Some(MapV(offers));
    assert FindEntry(es[1..], "provides") == Some(MapV(offers));
    EnvelopeHeader("introduce", body, actionid);
  }

  // The entries of the "provides" map in a message
  function ProvidedEntries(tree: Value): Option<seq<Entry>> {
    match FindMap(tree, "body")
    case None => None
    case Some(body) =>
      match FindMap(body, "provides")
      case Some(MapV(es)) => Some(es)
      case _ => None
  }

  // No entry ahead of this one has the same key.
  predicate IsFirst(es: seq<Entry>, j: int) { 0 <= j < |es| && forall i | 0 <= i < j :: es[i].key != es[j].key }

  function IntegerOf(v: Value): U64
    requires IsInteger(v)
  {
    match v
    case PosInt(n) => n
    case NegInt(i) => ToU64(i)
  }

  // Unpacking a map of versions: its keys are those of the integer entries ...
  lemma {:induction false} VersionKeys(es: seq<Entry>, key: string)
    ensures key in UnpackVersions(es) <==> exists en <- es :: en.key == key && IsInteger(en.val)
  {
    if es != [] {
      assert es == [es[0]] + es[1..];
      VersionKeys(es[1..], key);
    }
  }

  // ... and an integer entry that is the first with its key gives that key its version.
  lemma {:induction false} FirstVersion(es: seq<Entry>, j: nat)
    requires IsFirst(es, j) && IsInteger(es[j].val)
    ensures es[j].key in UnpackVersions(es) && UnpackVersions(es)[es[j].key] == IntegerOf(es[j].val)
  {
    if j > 0 {
      var rest := es[1..];
      assert rest[j - 1] == es[j] && forall i | 0 <= i < j - 1 :: rest[i] == es[i + 1];
      FirstVersion(rest, j - 1);
    }
  }

  lemma ReadOneProvided(name: string, pid: U64, func: string, ver: U64, actionid: string)
    ensures var tree := Introduction(name, pid, [Entry(func, PosInt(ver))], actionid);
      && CheckCommand(tree) == Some(VIntroduce)
      && CheckActionid(tree) == (if |actionid| < 5 then None else Some(actionid))
      && BodyString(tree, "name") == Some(name) && GetPid(tree) == ToInt(pid)
      && GetProvides(tree) == Some(map[func := ver])
  {
    var offers := [Entry(func, PosInt(ver))];
    ReadIntroduction(name, pid, offers, actionid);
    assert offers[1..] == [] && UnpackVersions(offers) == map[func := ver];
  }

  lemma ReadCall(mod: string, func: string, ver: U64, actionid: string)
    ensures var tree := CallMessage(mod, func, ver, actionid);
      && CheckCommand(tree) == Some(VCall)
      && CheckActionid(tree) == (if |actionid| < 5 then None else Some(actionid))
      && BodyString(tree, "module") == Some(mod) && BodyString(tree, "function") == Some(func)
      && BodyInt(tree, "version") == ver
  {
    var es := [Entry("module", Raw(mod)), Entry("function", Raw(func)), Entry("version", PosInt(ver))];
    var body := MapV(es);
    assert es[1..] == [Entry("function", Raw(func)), Entry("version", PosInt(ver))];
    assert es[1..][1..] == [Entry("version", PosInt(ver))];
    assert GetStringFrom(es[1..][1..], "actionid").None?;
    assert GetStringFrom(es[1..], "actionid").None?;
    assert GetString(body, "actionid").None?;
    assert GetStringFrom(es[1..], "function") == Some(func);
    assert GetIntFrom(es[1..][1..], "version") == ver;
    assert GetIntFrom(es[1..], "version") == ver;
    EnvelopeHeader("call", body, actionid);
  }

  // ---------- m_find_map ----------

  // The first entry with this very key, or the number of entries
  function ExactAt(es: seq<Entry>, key: string): (k: nat)
    ensures k <= |es|
    ensures k < |es| ==> es[k].key == key
    ensures forall j | 0 <= j < k :: es[j].key != key
  {
    if es == [] || es[0].key == key then 0 else 1 + ExactAt(es[1..], key)
  }

  // The entry m_find_map takes
  function FoundAt(es: seq<Entry>, key: string): (k: nat)
    ensures k <= |es|
    ensures FindEntry(es, key) == if k < |es| then Some(es[k].val) else None
    ensures k < |es| ==> es[k].key <= key
    ensures forall j | 0 <= j < k :: !(es[j].key <= key)
  {
    if es == [] || es[0].key <= key then 0 else 1 + FoundAt(es[1..], key)
  }

  // m_find_map takes the entry with the wanted key, or none if there is none, exactly if no entry
  // ahead of it - no entry at all if there is none - has a key that is a proper prefix of the wanted one.
  lemma FindsTheRightEntry(es: seq<Entry>, key: string)
    ensures FoundAt(es, key) == ExactAt(es, key) <==> forall j | 0 <= j < ExactAt(es, key) :: !(es[j].key < key)
  {
  }

  // An entry with an empty key ahead of everything else hides the body.
  lemma EmptyKeyHidesBody(v: Value, tree: seq<Entry>)
    ensures FindMap(MapV([Entry("", v)] + tree), "body") == Some(v)
  {
    assert ([Entry("", v)] + tree)[0].key <= "body";
  }

  lemma PathTokens(mod: string, func: string, last: string)
    requires mod != [] && ':' !in mod && func != [] && ':' !in func && last != [] && ':' !in last
    ensures Tokens(mod + ":" + func + ":" + last, ':') == [mod, func, last]
  {
    hide Tokens;
    var tail1 := ":" + last;
    var tail2 := ":" + (func + tail1);
    assert mod + ":" + func + ":" + last == mod + tail2;
    FirstToken(mod, ':', tail2);
    SkipSeparator(func + tail1, ':');
    FirstToken(func, ':', tail1);
    SkipSeparator(last, ':');
    assert last + [] == last;
    FirstToken(last, ':', []);
    NoTokens(':');
  }

  lemma SkipSeparator(rest: string, sep: char)
    ensures Tokens([sep] + rest, sep) == Tokens(rest, sep)
  {
    assert ([sep] + rest)[1..] == rest;
  }

  lemma NoTokens(sep: char)
    ensures Tokens([], sep) == []
  {}

  // Of a path with more than three parts the first three count; one with fewer says nothing.
  lemma OtherPaths(mod: string, func: string, last: string, more: string)
    requires PrintableName(mod) && PrintableName(func) && PrintableName(last)
    ensures ParsePath(mod + ":" + func + ":" + last + ":" + more) == Some((mod, func, ToU64(Atoi(last))))
    ensures ParsePath(mod + ":" + func).None? && ParsePath(mod).None?
  {
    hide Tokens, Atoi;
    var tail0 := ":" + more;
    var tail1 := ":" + (last + tail0);
    var tail2 := ":" + (func + tail1);
    assert mod + ":" + func + ":" + last + ":" + more == mod + tail2;
    FirstToken(mod, ':', tail2);
    SkipSeparator(func + tail1, ':');
    FirstToken(func, ':', tail1);
    SkipSeparator(last + tail0, ':');
    FirstToken(last, ':', tail0);
    assert mod + ":" + func == mod + (":" + func) && func + [] == func && mod + [] == mod;
    FirstToken(mod, ':', ":" + func);
    SkipSeparator(func, ':');
    FirstToken(func, ':', []);
    FirstToken(mod, ':', []);
    NoTokens(':');
  }

  // One interface path: what strtok and atoi read back is what was printed, exactly when
  // both names are non-empty and colon-free and the version fits (see VersionSurvives).
  lemma PathRoundTrip(mod: string, func: string, ver: U64)
    ensures ParsePath(FormatPath(mod, func, ver)) == Some((mod, func, ver)) <==>
      PrintableName(mod) && PrintableName(func) && (ver < TWO31 || ver >= TWO64 - TWO31)
  {
    var path := FormatPath(mod, func, ver);
    var ts := Tokens(path, ':');
    if PrintableName(mod) && PrintableName(func) {
      PrintedHasNoColon(ver);
      PathTokens(mod, func, PrintLong(ver));
      VersionSurvives(ver);
    } else if |ts| >= 3 {
      assert ts[0] in ts && ts[1] in ts;
    }
  }
}
