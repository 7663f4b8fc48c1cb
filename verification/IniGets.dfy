/** ini_gets: one value, looked up with a line buffer of its own. */
module IniGets {
  import opened IniText
  import opened IniBuffer
  import opened Wrappers

  // strnicmp, where char may be signed or not; the second string is the caller's section or key name.
  method StrNICmp(b: array<char>, at: nat, name: string, n: nat, signed: bool, ghost s: string) returns (diff: int)
    requires Holds(b, at, s) && CString(name)
    ensures diff == Difference(s, name, n, signed)
    ensures diff == 0 <==> SameName(Take(s, n), Take(name, n))
  {
    NoDifference(s, name, n, signed);
    var i, left := 0, n;
    ghost var rest, other := s, name;
    while left != 0 && (b[at + i] != '\0' || i < |name|)
      invariant i <= |name| && other == name[i..] && CString(other)
      invariant Holds(b, at + i, rest)
      invariant Difference(s, name, n, signed) == Difference(rest, other, left, signed)
      decreases left
    {
      assert rest != [] ==> rest[0] == b[at + i];
      left := left - 1;
      var c1, c2 := Upper(b[at + i]), Upper(if i < |name| then name[i] else '\0');
      if c1 != c2 { return Widened(c1, signed) - Widened(c2, signed); }
      rest, other := rest[1..], other[1..];
      i := i + 1;
    }
    assert rest != [] ==> rest[0] == b[at + i];
    diff := 0;
  }

  // The section test of the source's first loop
  method TestSection(b: array<char>, section: string, ghost line: string) returns (hit: bool)
    requires Holds(b, 0, line) && CString(section)
    ensures hit == IsSection(line, section)
  {
    var sp := SkipLeadingAt(b, 0, line);
    ghost var t := SkipLeading(line);
    assert t != [] ==> b[sp] == t[0];
    var ep := StrChr(b, sp, ']', t);
    hit := b[sp] == '[' && ep >= 0 && ep - sp - 1 == |section|;
    if hit {
      assert Take(t[1..], |section|) == t[1..ep - sp] && Take(section, |section|) == section;
      var signed: bool := *;   // whether char is signed makes no difference here
      var diff := StrNICmp(b, sp + 1, section, |section|, signed, t[1..]);
      hit := diff == 0;
    }
  }

  // Reads on until the line that opens the section.
  method FindSection(b: array<char>, text: string, section: string) returns (found: bool, pos: nat)
    requires b.Length == BUFFER_SIZE && CString(section)
    modifies b
    ensures pos <= |text|
    ensures AfterSection(text, section) == if found then Some(text[pos..]) else None
  {
    pos, found := 0, false;
    assert text[0..] == text;
    while !found
      invariant pos <= |text|
      invariant AfterSection(text, section) == if found then Some(text[pos..]) else AfterSection(text[pos..], section)
      decreases !found, |text| - pos
    {
      hide LineIn, RestIn, IsSection;
      ghost var line := LineIn(text[pos..], BUFFER_SIZE - 1);
      var got, next := ReadLine(b, text, pos);
      if !got { return; }
      found := TestSection(b, section, line);
      pos := next;
    }
  }

  method ReadLine(b: array<char>, text: string, pos: nat) returns (got: bool, next: nat)
    requires b.Length == BUFFER_SIZE && pos <= |text|
    modifies b
    ensures got == (pos < |text|)
    ensures got ==> pos < next <= |text| && text[next..] == RestIn(text[pos..], BUFFER_SIZE - 1)
    ensures got ==> Holds(b, 0, LineIn(text[pos..], BUFFER_SIZE - 1))
  {
    got, next := Fgets(b, 0, BUFFER_SIZE, text, pos);
    ghost var rest := text[pos..];
    assert got ==> rest[..next - pos] == text[pos..next] && rest[next - pos..] == text[next..];
  }

  // The key test of the source's loop, on a line that starts at sp
  method TestKey(b: array<char>, sp: nat, key: string, ghost t: string) returns (hit: bool, ep: int)
    requires Holds(b, sp, t) && CString(key)
    ensures hit == IsKey(t, key)
    ensures hit ==> ep == sp + Split(t)
  {
    assert t != [] ==> b[sp] == t[0];
    ep := StrChr(b, sp, '=', t);
    if ep < 0 { ep := StrChr(b, sp, ':', t); }
    if b[sp] == ';' || b[sp] == '#' || ep < 0 || |key| == 0 { return false, ep; }
    ghost var left := t[..Split(t)];
    var p := SkipTrailing(b, ep, sp, left);
    hit := p - sp == |key|;
    if hit {
      assert Take(t, |key|) == StripTrailing(left) && Take(key, |key|) == key;
      var signed: bool := *;   // whether char is signed makes no difference here
      var diff := StrNICmp(b, sp, key, |key|, signed, t);
      hit := diff == 0;
    }
  }

  // Reads on until the key or the next '[' line, and saves the value.
  method FindValue(b: array<char>, text: string, pos: nat, key: string, buffer: array<char>, size: nat) returns (found: bool)
    requires b.Length == BUFFER_SIZE && b != buffer
    requires pos <= |text| && 0 < size <= buffer.Length && CString(key)
    modifies b, buffer
    ensures found == FindKey(text[pos..], key).Some?
    ensures found ==> Holds(buffer, 0, Take(FindKey(text[pos..], key).value, size - 1))
  {
    var at := pos;
    while true
      invariant pos <= at <= |text|
      invariant FindKey(text[pos..], key) == FindKey(text[at..], key)
      decreases |text| - at
    {
      hide LineIn, RestIn, IsKey, Value, Split;
      ghost var line := LineIn(text[at..], BUFFER_SIZE - 1);
      var got, next := ReadLine(b, text, at);
      if !got { return false; }
      var sp := SkipLeadingAt(b, 0, line);
      ghost var t := SkipLeading(line);
      assert t != [] ==> b[sp] == t[0];
      if b[sp] == '[' { return false; }
      at := next;
      var hit, ep := TestKey(b, sp, key, t);
      if hit {
        SaveFound(b, sp, ep, buffer, size, t);
        return true;
      }
    }
  }

  method SaveFound(b: array<char>, sp: nat, ep: nat, buffer: array<char>, size: nat, ghost t: string)
    requires Holds(b, sp, t) && ep == sp + Split(t) < sp + |t|
    requires b != buffer && 0 < size <= buffer.Length
    modifies b, buffer
    ensures Holds(buffer, 0, Take(Value(SkipLeading(t[Split(t) + 1..])), size - 1))
  {
    hide SkipLeading, Clean;
    ghost var right := t[Split(t) + 1..];
    assert Holds(b, ep + 1, right);
    var vp := SkipLeadingAt(b, ep + 1, right);
    var p, quotes := CleanString(b, vp, SkipLeading(right));
    SaveStrncpy(buffer, 0, b, p, size, quotes, Clean(SkipLeading(right)).text);
  }

  /** The buffer gets the value that is looked up, cut to its size, or else the
      default, and the result is its length. `file` is the file's contents, if it
      can be opened; a NULL section is the empty one. */
  method Gets(file: Option<string>, section: string, key: string, default: array<char>, ghost d: string,
              buffer: array<char>, size: nat) returns (n: nat)
    requires CString(section) && CString(key)
    requires 0 < size <= buffer.Length && default != buffer && Holds(default, 0, d)
    modifies buffer
    ensures var found := if file.Some? then Lookup(file.value, section, key) else None;
            var value := Take(if found.Some? then found.value else d, size - 1);
            Holds(buffer, 0, value) && n == |value|
  {
    hide FindKey, AfterSection;
    ghost var found: Option<string> := None;
    var ok := false;
    if file.Some? {
      var text := file.value;
      var b := new char[BUFFER_SIZE];
      var entered, pos := true, 0;
      if |section| > 0 { entered, pos := FindSection(b, text, section); }
      assert text[0..] == text;
      if entered { ok := FindValue(b, text, pos, key, buffer, size); }
      found := Lookup(text, section, key);
    }
    if !ok { SaveStrncpy(buffer, 0, default, 0, size, Plain, d); }
    n := StrLen(buffer, 0, Take(if ok then found.value else d, size - 1));
  }
}
