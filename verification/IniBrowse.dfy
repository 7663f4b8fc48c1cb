/** ini_browse: every setting of a file, read through one fixed buffer that also
    holds the section in force. */
module IniBrowse {
  import opened Wrappers
  import opened IniText
  import opened IniBuffer

  // Consecutive sections share the buffer: their lengths, NULs included, add up
  // to at most 510, so a line always gets a window of three bytes or more.
  lemma SectionsShareTheBuffer(text: string, section: string)
    requires |section| <= 509
    ensures var p := Parse(LineOf(text, section));
            p.Header? ==> (|section| + 1) + (|p.name| + 1) <= BUFFER_SIZE - 2
  {}

  method ReadString(b: array<char>, at: nat, ghost s: string) returns (r: string)
    requires Holds(b, at, s)
    ensures r == s
  {
    var n := StrLen(b, at, s);
    r := b[at..at + n];
  }

  // A NUL over one character makes two strings of one.
  method Cut(b: array<char>, at: nat, k: nat, ghost t: string)
    requires Holds(b, at, t) && k < |t|
    modifies b
    ensures Holds(b, at, t[..k]) && Holds(b, at + k + 1, t[k + 1..])
    ensures forall i | 0 <= i < b.Length && i != at + k :: b[i] == old(b[i])
  {
    b[at + k] := '\0';
  }

  // The name between the brackets becomes the section at the front of the buffer.
  method EnterSection(b: array<char>, sp: nat, ep: nat, ghost t: string) returns (lenSec: nat)
    requires b.Length == BUFFER_SIZE && Holds(b, sp, t)
    requires Opens(t) && ep == sp + IndexOf(t, ']') < sp + |t|
    modifies b
    ensures Holds(b, 0, t[1..ep - sp]) && lenSec == ep - sp
  {
    ghost var name := t[1..ep - sp];
    Cut(b, sp, ep - sp, t);
    SaveStrncpy(b, 0, b, sp + 1, BUFFER_SIZE, Plain, name);
    var n := StrLen(b, 0, name);
    lenSec := n + 1;
  }

  // Key and value are moved down to stand right behind the section.
  method SplitPair(b: array<char>, lenSec: nat, sp: nat, ep: nat, ghost section: string, ghost t: string) returns (lenKey: nat)
    requires b.Length == BUFFER_SIZE && Holds(b, 0, section) && lenSec == |section| + 1
    requires lenSec <= sp && Holds(b, sp, t)
    requires ep == sp + Split(t) < sp + |t|
    modifies b
    ensures Holds(b, 0, section)
    ensures Holds(b, lenSec, StripTrailing(t[..Split(t)]))
    ensures lenKey == |StripTrailing(t[..Split(t)])| + 1
    ensures Holds(b, lenSec + lenKey, Value(SkipLeading(t[Split(t) + 1..])))
  {
    hide Value, StripTrailing, SkipLeading;
    ghost var left, right := t[..Split(t)], t[Split(t) + 1..];
    Cut(b, sp, ep - sp, t);
    lenKey := SaveKey(b, lenSec, sp, left);
    SaveValue(b, lenSec + lenKey, ep + 1, right);
  }

  method SaveKey(b: array<char>, to: nat, sp: nat, ghost left: string) returns (lenKey: nat)
    requires b.Length == BUFFER_SIZE && to <= sp && Holds(b, sp, left)
    modifies b
    ensures Holds(b, to, StripTrailing(left))
    ensures lenKey == |StripTrailing(left)| + 1
    ensures forall i | 0 <= i < b.Length && !(to <= i <= sp + |left|) :: b[i] == old(b[i])
  {
    StripTrailingAt(b, sp, left);
    SaveStrncpy(b, to, b, sp, BUFFER_SIZE - to, Plain, StripTrailing(left));
    var n := StrLen(b, to, StripTrailing(left));
    lenKey := n + 1;
  }

  method SaveValue(b: array<char>, to: nat, at: nat, ghost right: string)
    requires b.Length == BUFFER_SIZE && to <= at && Holds(b, at, right)
    modifies b
    ensures Holds(b, to, Value(SkipLeading(right)))
    ensures forall i | 0 <= i < b.Length && !(to <= i <= at + |right|) :: b[i] == old(b[i])
  {
    var vp := SkipLeadingAt(b, at, right);
    ghost var c := Clean(SkipLeading(right));
    var p, quotes := CleanString(b, vp, SkipLeading(right));
    SaveStrncpy(b, to, b, p, BUFFER_SIZE - to, quotes, c.text);
  }

  // What the callback is handed
  method ReadSetting(b: array<char>, lenSec: nat, lenKey: nat, ghost section: string, ghost key: string, ghost value: string)
    returns (r: Setting)
    requires Holds(b, 0, section) && Holds(b, lenSec, key) && Holds(b, lenSec + lenKey, value)
    ensures r == Setting(section, key, value)
  {
    var s := ReadString(b, 0, section);
    var k := ReadString(b, lenSec, key);
    var v := ReadString(b, lenSec + lenKey, value);
    r := Setting(s, k, v);
  }

  // One line: a comment, a new section or a setting for the callback
  method ReadLine(b: array<char>, len: nat, ghost section: string, ghost line: string)
    returns (lenSec: nat, setting: Option<Setting>)
    requires b.Length == BUFFER_SIZE && Holds(b, 0, section) && len == |section| + 1 && Holds(b, len, line)
    modifies b
    ensures match Parse(line)
            case Nothing => setting == None && lenSec == len && Holds(b, 0, section)
            case Header(name) => setting == None && lenSec == |name| + 1 && Holds(b, 0, name)
            case Pair(key, value) => setting == Some(Setting(section, key, value)) && lenSec == len && Holds(b, 0, section)
  {
    hide Value, StripTrailing, SkipLeading;
    var sp := SkipLeadingAt(b, len, line);
    ghost var t := SkipLeading(line);
    lenSec, setting := len, None;
    assert t != [] ==> b[sp] == t[0];
    if b[sp] == '\0' || b[sp] == ';' || b[sp] == '#' { return; }
    var ep := StrChr(b, sp, ']', t);
    if b[sp] == '[' && ep >= 0 {
      lenSec := EnterSection(b, sp, ep, t);
      return;
    }
    ep := StrChr(b, sp, '=', t);
    if ep < 0 { ep := StrChr(b, sp, ':', t); }
    if ep < 0 { return; }
    ghost var p := ParsePair(t);
    var lenKey := SplitPair(b, lenSec, sp, ep, section, t);
    var r := ReadSetting(b, lenSec, lenKey, section, p.key, p.value);
    setting := Some(r);
  }

  function Listed(setting: Option<Setting>): seq<Setting> {
    if setting.Some? then [setting.value] else []
  }

  method NextLine(b: array<char>, len: nat, text: string, pos: nat, ghost section: string)
    returns (got: bool, next: nat, lenSec: nat, setting: Option<Setting>)
    requires b.Length == BUFFER_SIZE && Holds(b, 0, section) && len == |section| + 1 <= 510
    requires pos <= |text|
    modifies b
    ensures got == (pos < |text|)
    ensures got ==> pos < next <= |text| && text[next..] == After(text[pos..], section)
    ensures got ==> Holds(b, 0, SectionAfter(text[pos..], section))
    ensures got ==> lenSec == |SectionAfter(text[pos..], section)| + 1
    ensures got ==> Listed(setting) == Here(text[pos..], section)
  {
    setting, lenSec := None, len;
    got, next := Fgets(b, len, BUFFER_SIZE - len, text, pos);
    if !got { return; }
    ghost var rest := text[pos..];
    assert rest[..next - pos] == text[pos..next] && rest[next - pos..] == text[next..];
    lenSec, setting := ReadLine(b, len, section, LineOf(rest, section));
  }

  // Every one of these callbacks answered yes.
  predicate Continued(calls: seq<Setting>, more: seq<Setting> -> bool) {
    calls == [] || (more(calls) && Continued(calls[..|calls| - 1], more))
  }

  /** The callbacks made are a prefix of the settings of the file, cut short only
      by the first callback that answers no. `more` is the callback's answer after
      the callbacks so far; `file` is the file's contents, if it can be opened. */
  method Browse(file: Option<string>, more: seq<Setting> -> bool) returns (found: bool, calls: seq<Setting>)
    ensures found == file.Some?
    ensures file.None? ==> calls == []
    ensures file.Some? ==> calls <= Settings(file.value, [])
    ensures calls != [] ==> Continued(calls[..|calls| - 1], more)
    ensures file.Some? && |calls| < |Settings(file.value, [])| ==> calls != [] && !more(calls)
  {
    hide Here, After, SectionAfter;
    calls := [];
    found := file.Some?;
    if !found { return; }
    var text, pos := file.value, 0;
    var b := new char[BUFFER_SIZE];
    b[0] := '\0';
    var lenSec := 1;
    ghost var section: string := [];
    assert text[0..] == text;
    while true
      invariant pos <= |text|
      invariant Holds(b, 0, section) && lenSec == |section| + 1 <= 510
      invariant calls + Settings(text[pos..], section) == Settings(text, [])
      invariant Continued(calls, more)
      decreases |text| - pos
    {
      ghost var rest, before := text[pos..], calls;
      var got, next, len, setting := NextLine(b, lenSec, text, pos, section);
      if !got { break; }
      ghost var left := Settings(text[next..], SectionAfter(rest, section));
      pos, lenSec, section := next, len, SectionAfter(rest, section);
      calls := calls + Listed(setting);
      assert before + (Listed(setting) + left) == calls + left;
      assert if setting.Some? then calls[..|calls| - 1] == before else calls == before;
      if setting.Some? && !more(calls) { break; }
    }
  }
}
