/** Files written with quoted values, and what the two readers make of them. */
module IniFile {
  import opened IniText
  import opened IniQuotes
  import opened Wrappers

  // No NUL and no end of line
  predicate OneLine(s: string) { forall i | 0 <= i < |s| :: s[i] != '\0' && s[i] != '\n' }

  predicate Lacks(s: string, c: char) { forall i | 0 <= i < |s| :: s[i] != c }

  predicate PlainName(name: string) { OneLine(name) && Lacks(name, ']') }

  predicate PlainKey(key: string) {
    && OneLine(key) && Lacks(key, '=') && !Ignored(key + ['=']) && !Opens(key)
    && (key != [] ==> !Blank(key[0]) && !Blank(key[|key| - 1]))
  }

  function HeaderText(name: string): string { ['['] + name + [']'] }

  function PairText(key: string, value: string): string { key + ['='] + Quoted(value) }

  lemma FirstAt(s: string, c: char, k: nat)
    requires k <= |s| && (k < |s| ==> s[k] == c)
    requires forall i | 0 <= i < k :: s[i] != c
    ensures IndexOf(s, c) == k
  {}

  lemma ParseHeader(name: string)
    requires PlainName(name)
    ensures Parse(HeaderText(name) + ['\n']) == Header(name)
  {
    var t := HeaderText(name) + ['\n'];
    FirstAt(t, ']', |name| + 1);
    assert t[0..] == t;
    assert t[1..|name| + 1] == name;
  }

  lemma ParsePairAt(t: string, k: nat)
    requires k < |t| && t[k] == '=' && Lacks(t[..k], '=')
    requires !Blank(t[0]) && !Ignored(t) && !Opens(t)
    ensures Parse(t) == Pair(StripTrailing(t[..k]), Value(SkipLeading(t[k + 1..])))
  {
    hide Value, StripTrailing;
    FirstAt(t, '=', k);
    assert LeadingBlanks(t) == 0 && t[0..] == t;
  }

  lemma SkipNothing(s: string)
    requires s != [] && !Blank(s[0])
    ensures SkipLeading(s) == s
  {}

  lemma ParsePairText(key: string, value: string)
    requires PlainKey(key)
    ensures Parse(PairText(key, value) + ['\n']) == Pair(key, value)
  {
    hide Value, Quoted, StripTrailing, Parse, SkipLeading;
    var right := Quoted(value) + ['\n'];
    var t := key + ['='] + right;
    assert t == PairText(key, value) + ['\n'];
    assert t[0] == (key + ['='])[0];
    assert t[..|key|] == key && t[|key| + 1..] == right;
    ParsePairAt(t, |key|);
    StripUpTo(key, []);
    assert key + [] == key;
    QuotedStarts(value);
    SkipNothing(right);
    CleanQuoted(value, ['\n']);
    ValueOfQuoted(value, right);
  }

  lemma QuotedStarts(x: string)
    ensures Quoted(x) != [] && Quoted(x)[0] == '"'
  {}

  lemma {:induction false} EscapeStaysOnOneLine(x: string)
    requires OneLine(x)
    ensures OneLine(Escape(x))
  {
    if x != [] { EscapeStaysOnOneLine(x[1..]); }
  }

  lemma PairStaysOnOneLine(key: string, value: string)
    requires OneLine(key) && OneLine(value)
    ensures OneLine(PairText(key, value))
  {
    EscapeStaysOnOneLine(value);
  }

  lemma SplitLine(line: string, rest: string, n: nat)
    requires OneLine(line) && |line| < n
    ensures LineIn(line + ['\n'] + rest, n) == line + ['\n'] && RestIn(line + ['\n'] + rest, n) == rest
  {
    var text := line + ['\n'] + rest;
    FirstAt(text, '\n', |line|);
    assert text[..|line| + 1] == line + ['\n'] && text[|line| + 1..] == rest;
    FirstAt(line + ['\n'], '\0', |line| + 1);
  }

  datatype Assignment = Assignment(key: string, value: string)

  predicate Writable(name: string, pairs: seq<Assignment>) {
    forall p <- pairs :: PlainKey(p.key) && OneLine(p.value) && |PairText(p.key, p.value)| < BUFFER_SIZE - 2 - |name|
  }

  function WritePairs(pairs: seq<Assignment>): string {
    if pairs == [] then [] else PairText(pairs[0].key, pairs[0].value) + ['\n'] + WritePairs(pairs[1..])
  }

  function WriteSection(name: string, pairs: seq<Assignment>): string {
    HeaderText(name) + ['\n'] + WritePairs(pairs)
  }

  function Under(name: string, pairs: seq<Assignment>): seq<Setting> {
    seq(|pairs|, i requires 0 <= i < |pairs| => Setting(name, pairs[i].key, pairs[i].value))
  }

  lemma {:induction false} PairsReadBack(name: string, pairs: seq<Assignment>)
    requires |name| <= 508 && Writable(name, pairs)
    ensures Settings(WritePairs(pairs), name) == Under(name, pairs)
  {
    hide Parse, PairText, LineIn, RestIn;
    if pairs != [] {
      var p := pairs[0];
      var line := PairText(p.key, p.value);
      PairStaysOnOneLine(p.key, p.value);
      SplitLine(line, WritePairs(pairs[1..]), Window(name));
      ParsePairText(p.key, p.value);
      PairsReadBack(name, pairs[1..]);
      assert Under(name, pairs) == [Setting(name, p.key, p.value)] + Under(name, pairs[1..]);
    }
  }

  // Every value written between quotes is read back unchanged, whatever quotes,
  // comment characters, brackets and backslashes it holds.
  lemma SectionReadsBack(name: string, pairs: seq<Assignment>)
    requires PlainName(name) && |name| <= 507 && Writable(name, pairs)
    ensures Settings(WriteSection(name, pairs), []) == Under(name, pairs)
  {
    SplitLine(HeaderText(name), WritePairs(pairs), Window([]));
    ParseHeader(name);
    PairsReadBack(name, pairs);
  }

  predicate Interrupts(second: string, name: string) {
    OneLine(second) &&
    (second == HeaderText(name) || (Opens(second) && Lacks(second, ']') && Lacks(second, '=') && Lacks(second, ':')))
  }

  // A '[' line that is a section of that name, or that is not closed, hides the
  // keys after it from ini_gets; ini_browse still reports them under the section.
  lemma HiddenKey(name: string, second: string, pairs: seq<Assignment>, key: string)
    requires PlainName(name) && name != [] && |name| <= 507
    requires Interrupts(second, name) && |second| < Window(name)
    requires Writable(name, pairs)
    ensures var text := HeaderText(name) + ['\n'] + (second + ['\n'] + WritePairs(pairs));
            Lookup(text, name, key) == None && Settings(text, []) == Under(name, pairs)
  {
    var tail := WritePairs(pairs);
    KeyNotFound(name, second, tail, key);
    BrowsedThrough(name, second, tail);
    PairsReadBack(name, pairs);
  }

  lemma KeyNotFound(name: string, second: string, tail: string, key: string)
    requires PlainName(name) && name != [] && |name| <= 507
    requires Interrupts(second, name) && |second| < Window(name)
    ensures Lookup(HeaderText(name) + ['\n'] + (second + ['\n'] + tail), name, key) == None
  {
    hide LineIn, RestIn;
    ParseHeader(name);
    SplitLine(HeaderText(name), second + ['\n'] + tail, BUFFER_SIZE - 1);
    SecondLine(name, second);
    SplitLine(second, tail, BUFFER_SIZE - 1);
  }

  lemma BrowsedThrough(name: string, second: string, tail: string)
    requires PlainName(name) && |name| <= 507
    requires Interrupts(second, name) && |second| < Window(name)
    ensures Settings(HeaderText(name) + ['\n'] + (second + ['\n'] + tail), []) == Settings(tail, name)
  {
    hide LineIn, RestIn, Parse;
    ParseHeader(name);
    SplitLine(HeaderText(name), second + ['\n'] + tail, Window([]));
    SecondLine(name, second);
    SplitLine(second, tail, Window(name));
  }

  lemma SecondLine(name: string, second: string)
    requires PlainName(name) && Interrupts(second, name)
    ensures Parse(second + ['\n']) == Header(name) || Parse(second + ['\n']) == Nothing
    ensures Opens(SkipLeading(second + ['\n']))
  {
    var t := second + ['\n'];
    assert t[0..] == t;
    if second == HeaderText(name) {
      ParseHeader(name);
    } else {
      FirstAt(t, ']', |t|);
      FirstAt(t, '=', |t|);
      FirstAt(t, ':', |t|);
    }
  }
}
