/** Values without quotes and files in any layout: comments are cut off where they start, and what somebody
    wrote is what both readers find. */
module IniRows {
  import opened IniText
  import opened IniQuotes
  import opened IniFile
  import opened Wrappers

  // ---------- where a comment starts ----------

  // A doubled or an escaped quote stands at n.
  predicate PairAt(s: string, n: int) { 0 <= n && n + 1 < |s| && s[n + 1] == '"' && (s[n] == '"' || s[n] == '\\') }

  // Character n is the second one of such a pair.
  predicate SecondOfPair(s: string, n: nat) { n > 0 && PairAt(s, n - 1) && !SecondOfPair(s, n - 1) }

  // A quote on its own
  predicate Toggles(s: string, n: nat)
    requires n < |s|
  {
    s[n] == '"' && !PairAt(s, n) && !SecondOfPair(s, n)
  }

  // An odd number of quotes on their own stand ahead of n.
  predicate InsideQuotes(s: string, n: nat)
    requires n <= |s|
  {
    n > 0 && InsideQuotes(s, n - 1) != Toggles(s, n - 1)
  }

  predicate Mark(c: char) { c == ';' || c == '#' }

  lemma PairSkips(s: string, n: nat)
    requires PairAt(s, n) && !SecondOfPair(s, n)
    ensures !SecondOfPair(s, n + 2)
    ensures InsideQuotes(s, n + 1) == InsideQuotes(s, n + 2) == InsideQuotes(s, n)
  {
    assert SecondOfPair(s, n + 1);
  }

  lemma OneSteps(s: string, n: nat)
    requires n < |s| && !PairAt(s, n) && !SecondOfPair(s, n)
    ensures !SecondOfPair(s, n + 1) && InsideQuotes(s, n + 1) == (InsideQuotes(s, n) != (s[n] == '"'))
  {}

  lemma {:induction false} CommentFrom(s: string, n: nat, inside: bool)
    requires n <= |s| && !SecondOfPair(s, n) && inside == InsideQuotes(s, n)
    ensures var k := n + CommentAt(s[n..], inside);
      && k <= |s| && (k < |s| ==> Mark(s[k]) && !InsideQuotes(s, k))
      && forall j | n <= j < k && Mark(s[j]) :: InsideQuotes(s, j)
    decreases |s| - n
  {
    hide InsideQuotes, SecondOfPair;
    var rest := s[n..];
    if n < |s| && (inside || !Mark(s[n])) {
      assert StartsPair(rest) == PairAt(s, n);
      if PairAt(s, n) {
        assert rest[2..] == s[n + 2..];
        PairSkips(s, n);
        CommentFrom(s, n + 2, inside);
      } else {
        assert rest[1..] == s[n + 1..];
        OneSteps(s, n);
        CommentFrom(s, n + 1, inside != (s[n] == '"'));
      }
    }
  }

  // A comment starts at the first ';' or '#' that stands outside quotes.
  lemma CommentStarts(s: string)
    ensures var k := CommentAt(s, false);
      && k <= |s| && (k < |s| ==> Mark(s[k]) && !InsideQuotes(s, k))
      && forall j | 0 <= j < k && Mark(s[j]) :: InsideQuotes(s, j)
  {
    assert s[0..] == s;
    CommentFrom(s, 0, false);
  }

  // ---------- values without quotes ----------

  predicate Trim(s: string) { s != [] ==> !Blank(s[0]) && !Blank(s[|s| - 1]) }

  // Nothing in it has a meaning to the parser.
  predicate BareText(v: string) { Trim(v) && Lacks(v, '"') && Lacks(v, ';') && Lacks(v, '#') }

  lemma {:induction false} NoCommentIn(v: string, rest: string)
    requires Lacks(v, '"') && Lacks(v, ';') && Lacks(v, '#') && !StartsWithQuote(rest)
    ensures CommentAt(v + rest, false) == |v| + CommentAt(rest, false)
  {
    if v == [] {
      assert v + rest == rest;
    } else {
      var tail := v[1..] + rest;
      assert v + rest == [v[0]] + tail;
      assert !StartsWithQuote(tail) by { if |v| > 1 { assert tail[0] == v[1]; } else { assert tail == rest; } }
      NoCommentIn(v[1..], rest);
    }
  }

  lemma KeptText(s: string, v: string, ws: string)
    requires BareText(v) && Blanks(ws) && s[..CommentAt(s, false)] == v + ws
    ensures Value(s) == v
  {
    StripUpTo(v, ws);
  }

  // Without quotes around it a value ends where the blanks ahead of the comment, or of the end, start.
  lemma UnquotedValue(v: string, ws: string, mark: char, comment: string)
    requires BareText(v) && Blanks(ws) && Mark(mark)
    ensures Value(v + ws) == v
    ensures Value(v + (ws + ([mark] + comment))) == v
  {
    hide Value;
    ScanBlanks(ws, [], false);
    assert ws + [] == ws;
    NoCommentIn(v, ws);
    KeptText(v + ws, v, ws);
    var rest := ws + ([mark] + comment);
    assert rest[0] == if ws == [] then mark else ws[0];
    ScanBlanks(ws, [mark] + comment, false);
    NoCommentIn(v, rest);
    assert (v + rest)[..|v| + |ws|] == v + ws;
    KeptText(v + rest, v, ws);
  }

  // ---------- the rows of a file ----------

  datatype Written = Bare(text: string) | InQuotes(text: string)

  datatype Row =
    | Remark(lead: string, text: string)                                     // blank, or a comment
    | Title(lead: string, name: string, tail: string)
    | Assign(lead: string, key: string, gap: string, sep: char, space: string,
             value: Written, trail: string, comment: string)

  function ValueText(v: Written): string {
    match v
    case Bare(text) => text
    case InQuotes(text) => Quoted(text)
  }

  // What stands behind '=' or ':'
  function RightText(row: Row): string
    requires row.Assign?
  {
    row.space + (ValueText(row.value) + (row.trail + row.comment))
  }

  function RowText(row: Row): string {
    match row
    case Remark(lead, text) => lead + text
    case Title(lead, name, tail) => lead + (HeaderText(name) + tail)
    case Assign(lead, key, gap, sep, _, _, _, _) => lead + (key + gap + ([sep] + RightText(row)))
  }

  predicate IsComment(text: string) { text == [] || Mark(text[0]) }

  predicate SplitsAt(row: Row)
    requires row.Assign?
  {
    if row.sep == '=' then Lacks(row.key, '=')
    else row.sep == ':' && Lacks(row.key, ':') && Lacks(RowText(row), '=')
  }

  // The row can be written like that: it is one line, and means what its parts say.
  predicate ValidRow(row: Row) {
    OneLine(RowText(row)) && Blanks(row.lead) &&
    match row
    case Remark(_, text) => IsComment(text)
    case Title(_, name, _) => PlainName(name)
    case Assign(_, key, gap, _, space, value, trail, comment) =>
      && key != [] && Trim(key) && !Ignored(key) && !Opens(key) && SplitsAt(row)
      && Blanks(gap) && Blanks(space) && Blanks(trail) && IsComment(comment)
      && if value.Bare? then BareText(value.text) else comment != [] ==> !EndsInBackslash(value.text)
  }

  lemma SkipBlanks(ws: string, s: string)
    requires Blanks(ws) && (s == [] || !Blank(s[0]))
    ensures SkipLeading(ws + s) == s
  {
    var t := ws + s;
    var k := LeadingBlanks(t);
    assert forall i | 0 <= i < |ws| :: t[i] == ws[i];
    assert s != [] ==> t[|ws|] == s[0];
    assert k == |ws|;
  }

  lemma BlanksTwice(a: string, b: string)
    requires Blanks(a) && Blanks(b)
    ensures Blanks(a + b)
  {}

  lemma ValueReadsBack(row: Row)
    requires ValidRow(row) && row.Assign?
    ensures Value(SkipLeading(RightText(row) + ['\n'])) == row.value.text
  {
    hide Value, SkipLeading, Quoted, Clean;
    var end := ['\n'];
    assert Blanks(end);
    var text, ws := ValueText(row.value), row.trail;
    var rest := if row.comment == [] then ws + end else ws + ([row.comment[0]] + (row.comment[1..] + end));
    assert [] + end == end;
    assert RightText(row) + end == row.space + (text + rest);
    BlanksTwice(ws, end);
    if row.value.InQuotes? {
      QuotedStarts(row.value.text);
      SkipBlanks(row.space, text + rest);
      if row.comment == [] {
        CleanQuoted(row.value.text, rest);
        ValueOfQuoted(row.value.text, text + rest);
      } else {
        QuotedThenComment(row.value.text, ws, row.comment[0], row.comment[1..] + end);
      }
    } else if text != [] {
      SkipBlanks(row.space, text + rest);
      if row.comment == [] { UnquotedValue(text, rest, ';', []); }
      else { UnquotedValue(text, ws, row.comment[0], row.comment[1..] + end); }
    } else {
      EmptyValue(row, rest);
    }
  }

  lemma EmptyValue(row: Row, rest: string)
    requires ValidRow(row) && row.Assign? && row.value == Bare([])
    requires rest == if row.comment == [] then row.trail + ['\n'] else row.trail + ([row.comment[0]] + (row.comment[1..] + ['\n']))
    ensures Value(SkipLeading(row.space + ([] + rest))) == []
  {
    hide Value, SkipLeading;
    BlanksTwice(row.space, row.trail);
    BlanksTwice(row.space + row.trail, ['\n']);
    assert [] + rest == rest;
    if row.comment == [] {
      assert row.space + rest == row.space + row.trail + ['\n'] + [];
      SkipBlanks(row.space + row.trail + ['\n'], []);
      UnquotedValue([], [], ';', []);
      assert "" + "" == "";
    } else {
      var remark := [row.comment[0]] + (row.comment[1..] + ['\n']);
      assert row.space + rest == row.space + row.trail + remark;
      SkipBlanks(row.space + row.trail, remark);
      UnquotedValue([], [], row.comment[0], row.comment[1..] + ['\n']);
      assert [] + ([] + remark) == remark;
    }
  }

  // A row from its first character that is not blank on
  function Body(row: Row): string
    requires row.Assign?
  {
    row.key + row.gap + ([row.sep] + RightText(row)) + ['\n']
  }

  lemma BodySplits(row: Row)
    requires ValidRow(row) && row.Assign?
    ensures var t := Body(row);
      && SkipLeading(RowText(row) + ['\n']) == t && !Ignored(t) && !Opens(t) && Split(t) == |row.key + row.gap| < |t|
      && t[..Split(t)] == row.key + row.gap && t[Split(t) + 1..] == RightText(row) + ['\n']
  {
    hide RightText, SkipLeading;
    var left, t := row.key + row.gap, Body(row);
    assert t[0] == row.key[0];
    assert RowText(row) + ['\n'] == row.lead + t;
    SkipBlanks(row.lead, t);
    assert t == left + ([row.sep] + (RightText(row) + ['\n']));
    assert t[|left|] == row.sep;
    forall i | 0 <= i < |left| ensures t[i] != row.sep { assert t[i] == if i < |row.key| then row.key[i] else row.gap[i - |row.key|]; }
    FirstAt(t, row.sep, |left|);
    if row.sep == ':' {
      forall i | 0 <= i < |t| ensures t[i] != '=' {
        if i < |t| - 1 { assert t[i] == RowText(row)[|row.lead| + i]; }
      }
    }
  }

  lemma KeyReadsBack(row: Row)
    requires ValidRow(row) && row.Assign?
    ensures StripTrailing(row.key + row.gap) == row.key
  {
    StripUpTo(row.key, row.gap);
  }

  // What the line of a row says
  function Said(row: Row): Line {
    match row
    case Remark(_, _) => Nothing
    case Title(_, name, _) => Header(name)
    case Assign(_, key, _, _, _, value, _, _) => Pair(key, value.text)
  }

  lemma RowParses(row: Row)
    requires ValidRow(row)
    ensures Parse(RowText(row) + ['\n']) == Said(row)
    ensures var t := SkipLeading(RowText(row) + ['\n']);
      && (Opens(t) <==> row.Title?) && (row.Title? ==> IndexOf(t, ']') < |t| && t[1..IndexOf(t, ']')] == row.name)
  {
    hide Value, StripTrailing, SkipLeading, RightText, Split, ParsePair;
    match row {
      case Remark(lead, text) => RemarkParses(lead, text);
      case Title(lead, name, tail) => TitleParses(lead, name, tail);
      case Assign(_, _, _, _, _, _, _, _) =>
        hide RowText, ValidRow, Parse;
        AssignParses(row);
    }
  }

  lemma AssignParses(row: Row)
    requires ValidRow(row) && row.Assign?
    ensures Parse(RowText(row) + ['\n']) == Said(row) && !Opens(SkipLeading(RowText(row) + ['\n']))
  {
    hide Value, StripTrailing, SkipLeading, Body, RightText, RowText, Split, Ignored, Opens, SplitsAt;
    BodySplits(row);
    KeyReadsBack(row);
    ValueReadsBack(row);
  }

  lemma RemarkParses(lead: string, text: string)
    requires Blanks(lead) && IsComment(text)
    ensures var t := SkipLeading(lead + text + ['\n']); Ignored(t) && !Opens(t)
  {
    hide SkipLeading;
    if text == [] {
      BlanksTwice(lead, ['\n']);
      assert lead + text + ['\n'] == lead + ['\n'] + [];
      SkipBlanks(lead + ['\n'], []);
    } else {
      assert lead + text + ['\n'] == lead + (text + ['\n']);
      SkipBlanks(lead, text + ['\n']);
    }
  }

  lemma TitleParses(lead: string, name: string, tail: string)
    requires Blanks(lead) && PlainName(name)
    ensures var t := SkipLeading(lead + (HeaderText(name) + tail) + ['\n']);
      !Ignored(t) && Opens(t) && IndexOf(t, ']') < |t| && t[1..IndexOf(t, ']')] == name
  {
    hide SkipLeading;
    var t := HeaderText(name) + tail + ['\n'];
    assert lead + (HeaderText(name) + tail) + ['\n'] == lead + t;
    SkipBlanks(lead, t);
    FirstAt(t, ']', |name| + 1);
    assert t[1..|name| + 1] == name;
  }

  // ---------- files ----------

  function FileText(rows: seq<Row>): string {
    if rows == [] then [] else RowText(rows[0]) + ['\n'] + FileText(rows[1..])
  }

  function SectionOf(row: Row, section: string): string { if row.Title? then row.name else section }

  // Every line fits the room that the section in force leaves.
  predicate RowsFit(rows: seq<Row>, section: string) {
    rows == [] || (|section| <= 509 && |RowText(rows[0])| < Window(section) && RowsFit(rows[1..], SectionOf(rows[0], section)))
  }

  // What somebody meant: every assignment under the title above it
  function Meaning(rows: seq<Row>, section: string): seq<Setting> {
    if rows == [] then []
    else
      (if rows[0].Assign? then [Setting(section, rows[0].key, rows[0].value.text)] else [])
      + Meaning(rows[1..], SectionOf(rows[0], section))
  }

  // A file in any layout - sections, comment lines, blank lines, '=' or ':', blanks around every part, values with
  // or without quotes and a comment behind them - is browsed as it was meant.
  lemma {:induction false} FileReadsBack(rows: seq<Row>, section: string)
    requires (forall row <- rows :: ValidRow(row)) && |section| <= 509 && RowsFit(rows, section)
    ensures Settings(FileText(rows), section) == Meaning(rows, section)
  {
    hide Parse, RowText, LineIn, RestIn, ValidRow;
    if rows != [] {
      var row, rest := rows[0], FileText(rows[1..]);
      assert OneLine(RowText(row)) by { ValidIsOneLine(row); }
      SplitLine(RowText(row), rest, Window(section));
      RowParses(row);
      assert |SectionOf(row, section)| <= 509 by { TitleFits(row, section); }
      FileReadsBack(rows[1..], SectionOf(row, section));
    }
  }

  lemma ValidIsOneLine(row: Row)
    requires ValidRow(row)
    ensures OneLine(RowText(row))
  {}

  lemma TitleFits(row: Row, section: string)
    requires |section| <= 509 && |RowText(row)| < Window(section)
    ensures |SectionOf(row, section)| <= 509
  {}

  // The rows below the first title of that name
  function RowsUnder(rows: seq<Row>, name: string): Option<seq<Row>> {
    if rows == [] then None
    else if rows[0].Title? && SameName(rows[0].name, name) then Some(rows[1..])
    else RowsUnder(rows[1..], name)
  }

  // The first value of that key ahead of the next title
  function FirstValue(rows: seq<Row>, key: string): Option<string> {
    if rows == [] || rows[0].Title? then None
    else if rows[0].Assign? && SameName(rows[0].key, key) then Some(rows[0].value.text)
    else FirstValue(rows[1..], key)
  }

  predicate ShortRows(rows: seq<Row>) { forall row <- rows :: |RowText(row)| < BUFFER_SIZE - 1 }

  lemma AssignIsKey(row: Row, key: string)
    requires ValidRow(row) && row.Assign?
    ensures var t := SkipLeading(RowText(row) + ['\n']);
      (IsKey(t, key) <==> SameName(row.key, key)) && Split(t) < |t| && Value(SkipLeading(t[Split(t) + 1..])) == row.value.text
  {
    hide Value, StripTrailing, SkipLeading, Body, RightText, RowText, Split, Ignored, Opens, SplitsAt;
    assert SameName(row.key, key) ==> key != [];
    BodySplits(row);
    KeyReadsBack(row);
    ValueReadsBack(row);
  }

  lemma RowIsKey(row: Row, key: string)
    requires ValidRow(row)
    ensures var t := SkipLeading(RowText(row) + ['\n']);
      && (!Opens(t) ==> (IsKey(t, key) <==> row.Assign? && SameName(row.key, key)))
      && (IsKey(t, key) && row.Assign? ==> Value(SkipLeading(t[Split(t) + 1..])) == row.value.text)
  {
    hide Value, StripTrailing, SkipLeading, Split, SameName, RightText;
    match row {
      case Remark(lead, text) => RemarkParses(lead, text);
      case Title(lead, name, tail) => TitleParses(lead, name, tail);
      case Assign(_, _, _, _, _, _, _, _) =>
        hide RowText, ValidRow, IsKey;
        AssignIsKey(row, key);
    }
  }

  lemma {:induction false} KeyIsFound(rows: seq<Row>, key: string)
    requires (forall row <- rows :: ValidRow(row)) && ShortRows(rows)
    ensures FindKey(FileText(rows), key) == FirstValue(rows, key)
  {
    hide RowText, LineIn, RestIn, ValidRow, IsKey, SkipLeading, Parse;
    if rows != [] {
      assert OneLine(RowText(rows[0])) by { ValidIsOneLine(rows[0]); }
      SplitLine(RowText(rows[0]), FileText(rows[1..]), BUFFER_SIZE - 1);
      RowParses(rows[0]);
      RowIsKey(rows[0], key);
      KeyIsFound(rows[1..], key);
    }
  }

  lemma {:induction false} SectionIsFound(rows: seq<Row>, section: string)
    requires (forall row <- rows :: ValidRow(row)) && ShortRows(rows)
    ensures match RowsUnder(rows, section)
      case None => AfterSection(FileText(rows), section) == None
      case Some(rest) =>
        && AfterSection(FileText(rows), section) == Some(FileText(rest))
        && (forall row <- rest :: ValidRow(row)) && ShortRows(rest)
  {
    hide RowText, LineIn, RestIn, ValidRow, SkipLeading, Parse;
    if rows != [] {
      assert OneLine(RowText(rows[0])) by { ValidIsOneLine(rows[0]); }
      SplitLine(RowText(rows[0]), FileText(rows[1..]), BUFFER_SIZE - 1);
      RowParses(rows[0]);
      SectionIsFound(rows[1..], section);
    }
  }

  // In such a file ini_gets finds the first value of the key under the first title of that name; the nameless
  // section is what stands above the first title.
  lemma ValueIsFound(rows: seq<Row>, section: string, key: string)
    requires (forall row <- rows :: ValidRow(row)) && ShortRows(rows)
    ensures Lookup(FileText(rows), section, key) ==
      if section == [] then FirstValue(rows, key)
      else if RowsUnder(rows, section).Some? then FirstValue(RowsUnder(rows, section).value, key)
      else None
  {
    if section == [] {
      KeyIsFound(rows, key);
    } else {
      SectionIsFound(rows, section);
      var rest := RowsUnder(rows, section);
      if rest.Some? { KeyIsFound(rest.value, key); }
    }
  }
}
