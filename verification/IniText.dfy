/** What the INI parser means, on plain strings: one line at a time, without
    buffers. A C string is a string without NUL. */
module IniText {
  import opened Wrappers

  const BUFFER_SIZE: nat := 512

  datatype Quotes = Plain | Enquote | Dequote
  datatype Cleaned = Cleaned(text: string, quotes: Quotes)
  datatype Line = Nothing | Header(name: string) | Pair(key: string, value: string)
  datatype Setting = Setting(section: string, key: string, value: string)

  predicate CString(s: string) { forall i | 0 <= i < |s| :: s[i] != '\0' }

  // The C string at the front of a run of bytes
  function CutAtNul(s: string): (c: string)
    ensures CString(c) && |c| <= |s|
  {
    s[..IndexOf(s, '\0')]
  }

  function Take(s: string, n: nat): string { if |s| <= n then s else s[..n] }

  predicate Blank(c: char) { '\0' < c <= ' ' }

  function LeadingBlanks(s: string): (k: nat)
    ensures k <= |s|
    ensures k < |s| ==> !Blank(s[k])
    ensures forall i | 0 <= i < k :: Blank(s[i])
  {
    if s != [] && Blank(s[0]) then 1 + LeadingBlanks(s[1..]) else 0
  }

  // How much is left when trailing blanks are cut off
  function Trimmed(s: string): (k: nat)
    ensures k <= |s|
    ensures k > 0 ==> !Blank(s[k - 1])
    ensures forall i | k <= i < |s| :: Blank(s[i])
  {
    if s != [] && Blank(s[|s| - 1]) then Trimmed(s[..|s| - 1]) else |s|
  }

  function SkipLeading(s: string): (t: string)
    ensures |t| <= |s|
    ensures CString(s) ==> CString(t)
  {
    s[LeadingBlanks(s)..]
  }

  function StripTrailing(s: string): (t: string)
    ensures |t| <= |s|
    ensures CString(s) ==> CString(t)
  {
    s[..Trimmed(s)]
  }

  // A doubled or an escaped quote
  predicate StartsPair(s: string) { |s| > 1 && (s[0] == '"' || s[0] == '\\') && s[1] == '"' }

  // Where a trailing comment starts: the first ';' or '#' outside quotes. A
  // doubled or escaped quote neither opens nor closes anything.
  function CommentAt(s: string, inside: bool): (k: nat)
    ensures k <= |s|
    ensures k < |s| ==> s[k] == ';' || s[k] == '#'
    decreases |s|
  {
    if s == [] || (!inside && (s[0] == ';' || s[0] == '#')) then 0
    else if StartsPair(s) then 2 + CommentAt(s[2..], inside)
    else 1 + CommentAt(s[1..], inside != (s[0] == '"'))
  }

  function Unquoted(t: string): (c: Cleaned)
    ensures !c.quotes.Enquote?
    ensures |c.text| <= |t|
    ensures CString(t) ==> CString(c.text)
  {
    if t != [] && t[0] == '"' && t[|t| - 1] == '"' then
      Cleaned(if |t| == 1 then [] else t[1..|t| - 1], Dequote)
    else
      Cleaned(t, Plain)
  }

  // A value without its comment, its trailing blanks and the quotes around it
  function Clean(s: string): (c: Cleaned)
    ensures !c.quotes.Enquote?
    ensures |c.text| <= |s|
    ensures CString(s) ==> CString(c.text)
  {
    Unquoted(StripTrailing(s[..CommentAt(s, false)]))
  }

  function EscapeOne(c: char): string { if c == '"' then ['\\', '"'] else [c] }

  function Escape(s: string): (t: string)
    ensures CString(s) ==> CString(t)
    ensures t != [] ==> t[0] != '"'
  {
    if s == [] then [] else EscapeOne(s[0]) + Escape(s[1..])
  }

  function Unescape(s: string): (t: string)
    ensures |t| <= |s|
    ensures CString(s) ==> CString(t)
    decreases |s|
  {
    if s == [] then []
    else if StartsPair(s) then ['"'] + Unescape(s[2..])
    else [s[0]] + Unescape(s[1..])
  }

  function Quoted(s: string): string { ['"'] + Escape(s) + ['"'] }

  // The longest prefix of s whose escaped form is at most `room` long
  function Fitting(s: string, room: nat): string {
    if s == [] || room < |EscapeOne(s[0])| then []
    else [s[0]] + Fitting(s[1..], room - |EscapeOne(s[0])|)
  }

  // What save_strncpy leaves in a destination of maxlen characters
  function Saved(s: string, maxlen: nat, option: Quotes): (t: string)
    requires maxlen > 0
    ensures |t| < maxlen
    ensures CString(s) ==> CString(t)
  {
    if option.Dequote? then Take(Unescape(s), maxlen - 1)
    else if option.Enquote? && maxlen >= 3 then
      FittingIsLongest(s, maxlen - 3, []);
      Quoted(Fitting(s, maxlen - 3))
    else Take(s, maxlen - 1)
  }

  function Value(s: string): (v: string)
    ensures |v| <= |s|
    ensures CString(s) ==> CString(v)
  {
    var c := Clean(s);
    if c.quotes.Dequote? then Unescape(c.text) else c.text
  }

  // The index of the '=' that splits a line, or else of the ':', or |t|
  function Split(t: string): (k: nat)
    ensures k <= |t|
    ensures k < |t| ==> t[k] == '=' || t[k] == ':'
  {
    if IndexOf(t, '=') < |t| then IndexOf(t, '=') else IndexOf(t, ':')
  }

  predicate Ignored(t: string) { t == [] || t[0] == ';' || t[0] == '#' }

  predicate Opens(t: string) { t != [] && t[0] == '[' }

  function ParsePair(t: string): (p: Line)
    ensures p.Pair? ==> |p.key| + |p.value| < |t|
    ensures CString(t) && p.Pair? ==> CString(p.key) && CString(p.value)
    ensures !p.Header?
  {
    var k := Split(t);
    if k == |t| then Nothing
    else
      var left, right := t[..k], t[k + 1..];
      Pair(StripTrailing(left), Value(SkipLeading(right)))
  }

  // What a line says, from its first non-blank character on
  function ParseFrom(t: string): (p: Line)
    ensures p.Header? ==> |p.name| + 2 <= |t|
    ensures p.Pair? ==> |p.key| + |p.value| < |t|
    ensures CString(t) && p.Header? ==> CString(p.name)
    ensures CString(t) && p.Pair? ==> CString(p.key) && CString(p.value)
  {
    if Ignored(t) then Nothing
    else if Opens(t) && IndexOf(t, ']') < |t| then Header(t[1..IndexOf(t, ']')])
    else ParsePair(t)
  }

  function Parse(line: string): (p: Line)
    ensures p.Header? ==> |p.name| + 2 <= |line|
    ensures p.Pair? ==> |p.key| + |p.value| < |line|
    ensures CString(line) && p.Header? ==> CString(p.name)
    ensures CString(line) && p.Pair? ==> CString(p.key) && CString(p.value)
  {
    ParseFrom(SkipLeading(line))
  }

  // How much of the text one fgets of n + 1 bytes takes
  function Taken(text: string, n: nat): (k: nat)
    requires n > 0
    ensures k <= n && k <= |text|
    ensures text != [] ==> k > 0
  {
    var eol := IndexOf(text, '\n');
    if eol < n && eol < |text| then eol + 1 else if |text| <= n then |text| else n
  }

  // The section in force is kept at the front of the buffer: lines get the rest.
  function Window(section: string): (n: nat)
    requires |section| <= 509
    ensures n > 0
  {
    BUFFER_SIZE - |section| - 2
  }

  // The first line of the text, as read into room for n characters, and the rest
  function LineIn(text: string, n: nat): (line: string)
    requires n > 0
    ensures CString(line) && |line| <= n
  {
    CutAtNul(text[..Taken(text, n)])
  }

  function RestIn(text: string, n: nat): (rest: string)
    requires n > 0
    ensures text != [] ==> |rest| < |text|
  {
    text[Taken(text, n)..]
  }

  function LineOf(text: string, section: string): (line: string)
    requires |section| <= 509
    ensures CString(line) && |line| <= Window(section)
  {
    LineIn(text, Window(section))
  }

  function After(text: string, section: string): (rest: string)
    requires |section| <= 509
    ensures text != [] ==> |rest| < |text|
  {
    RestIn(text, Window(section))
  }

  // The section in force after the first line
  function SectionAfter(text: string, section: string): (name: string)
    requires |section| <= 509
    ensures |name| <= 509
    ensures CString(section) ==> CString(name)
  {
    var p := Parse(LineOf(text, section));
    if p.Header? then p.name else section
  }

  // What the first line sets
  function Here(text: string, section: string): (settings: seq<Setting>)
    requires |section| <= 509
  {
    var p := Parse(LineOf(text, section));
    if p.Pair? then [Setting(section, p.key, p.value)] else []
  }

  // Every setting of a file, in order, under its section
  function Settings(text: string, section: string): seq<Setting>
    requires |section| <= 509
    decreases |text|
  {
    if text == [] then [] else Here(text, section) + Settings(After(text, section), SectionAfter(text, section))
  }

  function Upper(c: char): char { if 'a' <= c <= 'z' then c - 'a' + 'A' else c }

  // strnicmp finds no difference
  predicate SameName(a: string, b: string) {
    |a| == |b| && forall i | 0 <= i < |a| :: Upper(a[i]) == Upper(b[i])
  }

  // A character as an int, where char may be signed
  function Widened(c: char, signed: bool): int {
    if signed && 0x80 <= c as int < 0x100 then c as int - 0x100 else c as int
  }

  // What strnicmp returns: the difference of the first characters, among the first n, that are
  // not equal up to case. A NUL stands behind a string.
  function Difference(a: string, b: string, n: nat, signed: bool): int {
    var c, d := Upper(if a == [] then '\0' else a[0]), Upper(if b == [] then '\0' else b[0]);
    if n == 0 || c == '\0' == d then 0
    else if c != d then Widened(c, signed) - Widened(d, signed)
    else Difference(if a == [] then a else a[1..], if b == [] then b else b[1..], n - 1, signed)
  }

  // Two C strings do not differ exactly when their first n characters are equal up to case.
  lemma {:induction false} NoDifference(a: string, b: string, n: nat, signed: bool)
    requires CString(a) && CString(b)
    ensures Difference(a, b, n, signed) == 0 <==> SameName(Take(a, n), Take(b, n))
  {
    var x, y := Take(a, n), Take(b, n);
    if n > 0 && a != [] && b != [] && Upper(a[0]) == Upper(b[0]) {
      NoDifference(a[1..], b[1..], n - 1, signed);
      assert x == [a[0]] + Take(a[1..], n - 1) && y == [b[0]] + Take(b[1..], n - 1);
      SameNext(a[0], Take(a[1..], n - 1), b[0], Take(b[1..], n - 1));
    } else if n > 0 && a != [] && b != [] {
      assert x[0] == a[0] && y[0] == b[0];
    }
  }

  lemma SameNext(c: char, x: string, d: char, y: string)
    ensures SameName([c] + x, [d] + y) <==> Upper(c) == Upper(d) && SameName(x, y)
  {
    if SameName([c] + x, [d] + y) {
      assert ([c] + x)[0] == c && ([d] + y)[0] == d;
      forall i | 0 <= i < |x| && i < |y| ensures Upper(x[i]) == Upper(y[i]) {
        assert ([c] + x)[i + 1] == x[i] && ([d] + y)[i + 1] == y[i];
      }
    }
  }

  predicate Closed(t: string) { Opens(t) ==> IndexOf(t, ']') < |t| }

  // The line opens the section of that name.
  predicate IsSection(line: string, section: string) {
    var t := SkipLeading(line);
    Opens(t) && Closed(t) && SameName(t[1..IndexOf(t, ']')], section)
  }

  // The line, from its first non-blank character on, sets that key.
  predicate IsKey(t: string, key: string) {
    !Ignored(t) && Split(t) < |t| && key != [] && SameName(StripTrailing(t[..Split(t)]), key)
  }

  // What follows the first line that opens the section
  function AfterSection(text: string, section: string): (rest: Option<string>)
    decreases |text|
  {
    if text == [] then None
    else if IsSection(LineIn(text, BUFFER_SIZE - 1), section) then Some(RestIn(text, BUFFER_SIZE - 1))
    else AfterSection(RestIn(text, BUFFER_SIZE - 1), section)
  }

  // The value of a key before any line that starts with '['
  function FindKey(text: string, key: string): (value: Option<string>)
    ensures value.Some? ==> CString(value.value)
    decreases |text|
  {
    if text == [] then None
    else
      var t := SkipLeading(LineIn(text, BUFFER_SIZE - 1));
      if Opens(t) then None
      else if IsKey(t, key) then Some(Value(SkipLeading(t[Split(t) + 1..])))
      else FindKey(RestIn(text, BUFFER_SIZE - 1), key)
  }

  // What ini_gets looks up; the empty section is the part above the first one.
  function Lookup(text: string, section: string, key: string): (value: Option<string>)
    ensures value.Some? ==> CString(value.value)
  {
    if section == [] then FindKey(text, key)
    else
      var rest := AfterSection(text, section);
      if rest.Some? then FindKey(rest.value, key) else None
  }

  lemma {:induction false} EscapeAppend(y: string, c: char)
    ensures Escape(y + [c]) == Escape(y) + EscapeOne(c)
  {
    if y == [] {
      assert y + [c] == [c];
    } else {
      assert (y + [c])[1..] == y[1..] + [c];
      EscapeAppend(y[1..], c);
    }
  }

  lemma {:induction false} FittingIsLongest(s: string, room: nat, p: string)
    ensures Fitting(s, room) <= s
    ensures |Escape(Fitting(s, room))| <= room
    ensures p <= s && |Escape(p)| <= room ==> p <= Fitting(s, room)
    ensures CString(s) ==> CString(Fitting(s, room))
    decreases |s|
  {
    if s != [] && room >= |EscapeOne(s[0])| {
      var f := Fitting(s[1..], room - |EscapeOne(s[0])|);
      assert Fitting(s, room) == [s[0]] + f && ([s[0]] + f)[1..] == f;
      FittingIsLongest(s[1..], room - |EscapeOne(s[0])|, if p == [] then [] else p[1..]);
    }
  }
}
