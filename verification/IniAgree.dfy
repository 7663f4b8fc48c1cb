/** ini_gets and ini_browse are separate readers of the same format. When they agree is stated on the
    lines of the file, which are the same for both as long as they fit the two buffers. */
module IniAgree {
  import opened IniText
  import opened Wrappers

  // Every line fits the buffers of both readers.
  predicate LinesFit(text: string, section: string)
    requires |section| <= 509
    decreases |text|
  {
    text == [] || (
      && Taken(text, Window(section)) == Taken(text, BUFFER_SIZE - 1)
      && LinesFit(After(text, section), SectionAfter(text, section)))
  }

  function Lines(text: string): seq<string>
    decreases |text|
  {
    if text == [] then [] else [LineIn(text, BUFFER_SIZE - 1)] + Lines(RestIn(text, BUFFER_SIZE - 1))
  }

  // ---------- the two readers on lines ----------

  function NextSection(line: string, section: string): string {
    var p := Parse(line);
    if p.Header? then p.name else section
  }

  // The section in force at the i-th line
  function SectionAt(lines: seq<string>, section: string, i: nat): string
    requires i <= |lines|
  {
    if i == 0 then section else SectionAt(lines[1..], NextSection(lines[0], section), i - 1)
  }

  // The i-th line sets the key under the section, as ini_browse reports it.
  predicate Sets(lines: seq<string>, section: string, wanted: string, key: string, i: nat)
    requires i < |lines|
  {
    var p := Parse(lines[i]);
    p.Pair? && SameName(SectionAt(lines, section, i), wanted) && SameName(p.key, key)
  }

  ghost predicate FirstSets(lines: seq<string>, section: string, wanted: string, key: string, i: nat) {
    i < |lines| && Sets(lines, section, wanted, key, i)
    && forall j | 0 <= j < i :: !Sets(lines, section, wanted, key, j)
  }

  predicate Bracket(line: string) { Opens(SkipLeading(line)) }

  // The i-th line stands before the next '[' line after the first opening of the section; for the
  // nameless section, before the first '[' line.
  ghost predicate InFirstBlock(lines: seq<string>, wanted: string, i: nat) {
    i < |lines| &&
    if wanted == [] then NoBracket(lines, 0, i)
    else exists o | 0 <= o < i :: FirstOpening(lines, wanted, o) && NoBracket(lines, o + 1, i)
  }

  ghost predicate FirstOpening(lines: seq<string>, wanted: string, o: nat) {
    o < |lines| && IsSection(lines[o], wanted) && forall j | 0 <= j < o :: !IsSection(lines[j], wanted)
  }

  ghost predicate NoBracket(lines: seq<string>, from: nat, to: nat)
    requires to < |lines|
  {
    forall j | from <= j <= to :: !Bracket(lines[j])
  }

  function FindIn(lines: seq<string>, key: string): Option<string> {
    if lines == [] || Bracket(lines[0]) then None
    else
      var t := SkipLeading(lines[0]);
      if IsKey(t, key) then Some(Value(SkipLeading(t[Split(t) + 1..]))) else FindIn(lines[1..], key)
  }

  function LookupIn(lines: seq<string>, wanted: string, key: string): Option<string> {
    if wanted == [] then FindIn(lines, key)
    else if lines == [] then None
    else if IsSection(lines[0], wanted) then FindIn(lines[1..], key)
    else LookupIn(lines[1..], wanted, key)
  }

  // The first setting ini_browse reports that matches
  function FirstMatch(settings: seq<Setting>, section: string, key: string): Option<string> {
    if settings == [] then None
    else if SameName(settings[0].section, section) && SameName(settings[0].key, key) then Some(settings[0].value)
    else FirstMatch(settings[1..], section, key)
  }

  function MatchIn(lines: seq<string>, section: string, wanted: string, key: string): Option<string> {
    if lines == [] then None
    else
      var p := Parse(lines[0]);
      if p.Pair? && SameName(section, wanted) && SameName(p.key, key) then Some(p.value)
      else MatchIn(lines[1..], NextSection(lines[0], section), wanted, key)
  }

  // ---------- from texts to lines ----------

  lemma {:induction false} FindsInLines(text: string, key: string)
    ensures FindKey(text, key) == FindIn(Lines(text), key)
    decreases |text|
  {
    if text != [] { FindsInLines(RestIn(text, BUFFER_SIZE - 1), key); }
  }

  lemma {:induction false} LooksUpInLines(text: string, wanted: string, key: string)
    ensures Lookup(text, wanted, key) == LookupIn(Lines(text), wanted, key)
    decreases |text|
  {
    if wanted == [] {
      FindsInLines(text, key);
    } else if text != [] {
      var rest := RestIn(text, BUFFER_SIZE - 1);
      if IsSection(LineIn(text, BUFFER_SIZE - 1), wanted) { FindsInLines(rest, key); }
      else { LooksUpInLines(rest, wanted, key); }
    }
  }

  lemma FirstMatchAppend(a: seq<Setting>, b: seq<Setting>, section: string, key: string)
    requires |a| <= 1
    ensures FirstMatch(a + b, section, key) ==
      if a != [] && SameName(a[0].section, section) && SameName(a[0].key, key) then Some(a[0].value)
      else FirstMatch(b, section, key)
  {
    if a == [] { assert a + b == b; } else { assert (a + b)[1..] == b; }
  }

  lemma {:induction false} MatchesInLines(text: string, section: string, wanted: string, key: string)
    requires |section| <= 509 && LinesFit(text, section)
    ensures FirstMatch(Settings(text, section), wanted, key) == MatchIn(Lines(text), section, wanted, key)
    decreases |text|
  {
    if text != [] {
      var rest, next := After(text, section), SectionAfter(text, section);
      assert LineIn(text, BUFFER_SIZE - 1) == LineOf(text, section) && RestIn(text, BUFFER_SIZE - 1) == rest;
      MatchesInLines(rest, next, wanted, key);
      FirstMatchAppend(Here(text, section), Settings(rest, next), wanted, key);
    }
  }

  // ---------- agreement ----------

  // A line that does not start with '[' is a setting for both readers or for neither.
  lemma PlainLine(line: string, key: string)
    requires !Bracket(line) && key != []
    ensures var t := SkipLeading(line);
      && !Parse(line).Header?
      && (IsKey(t, key) <==> Parse(line).Pair? && SameName(Parse(line).key, key))
      && (IsKey(t, key) ==> Parse(line).value == Value(SkipLeading(t[Split(t) + 1..])))
  {}

  lemma SectionLine(line: string, section: string, wanted: string)
    ensures IsSection(line, wanted) <==> Parse(line).Header? && SameName(Parse(line).name, wanted)
    ensures IsSection(line, wanted) ==> Bracket(line)
    ensures !IsSection(line, wanted) && !SameName(section, wanted) ==> !SameName(NextSection(line, section), wanted)
  {}

  lemma SetsShift(lines: seq<string>, section: string, wanted: string, key: string, i: nat)
    requires 0 < i < |lines|
    ensures Sets(lines, section, wanted, key, i) <==> Sets(lines[1..], NextSection(lines[0], section), wanted, key, i - 1)
  {}

  // There is a match exactly if some line sets the key, and it is the first one that does.
  lemma {:induction false} MatchIsFirst(lines: seq<string>, section: string, wanted: string, key: string) returns (i: nat)
    ensures i <= |lines| && forall j | 0 <= j < i :: !Sets(lines, section, wanted, key, j)
    ensures i == |lines| ==> MatchIn(lines, section, wanted, key).None?
    ensures i < |lines| ==> Sets(lines, section, wanted, key, i)
                            && MatchIn(lines, section, wanted, key) == Some(Parse(lines[i]).value)
  {
    if lines == [] {
      i := 0;
    } else if Sets(lines, section, wanted, key, 0) {
      i := 0;
    } else {
      var k := MatchIsFirst(lines[1..], NextSection(lines[0], section), wanted, key);
      i := k + 1;
      forall j | 0 < j < |lines|
        ensures Sets(lines, section, wanted, key, j) <==> Sets(lines[1..], NextSection(lines[0], section), wanted, key, j - 1)
      {
        SetsShift(lines, section, wanted, key, j);
      }
    }
  }

  // Inside the section: the key is found up to the next '[' line, as the first line that sets it.
  lemma {:induction false} FoundInBlock(lines: seq<string>, section: string, wanted: string, key: string)
    requires SameName(section, wanted) && key != []
    ensures FindIn(lines, key).Some? <==> exists i | 0 <= i < |lines| :: FirstSets(lines, section, wanted, key, i) && NoBracket(lines, 0, i)
    ensures FindIn(lines, key).Some? ==> FindIn(lines, key) == MatchIn(lines, section, wanted, key)
  {
    if lines != [] && !Bracket(lines[0]) {
      var next := NextSection(lines[0], section);
      PlainLine(lines[0], key);
      assert next == section;
      if IsKey(SkipLeading(lines[0]), key) {
        assert FirstSets(lines, section, wanted, key, 0) && NoBracket(lines, 0, 0);
      } else {
        FoundInBlock(lines[1..], section, wanted, key);
        BlockShift(lines, section, wanted, key);
      }
    }
  }

  lemma BlockShift(lines: seq<string>, section: string, wanted: string, key: string)
    requires lines != [] && !Bracket(lines[0]) && !Sets(lines, section, wanted, key, 0)
    ensures var rest, next := lines[1..], NextSection(lines[0], section);
      (exists i | 0 <= i < |lines| :: FirstSets(lines, section, wanted, key, i) && NoBracket(lines, 0, i)) <==>
      (exists i | 0 <= i < |rest| :: FirstSets(rest, next, wanted, key, i) && NoBracket(rest, 0, i))
  {
    hide Sets, Bracket;
    var rest, next := lines[1..], NextSection(lines[0], section);
    forall i | 0 < i < |lines| ensures FirstSets(lines, section, wanted, key, i) <==> FirstSets(rest, next, wanted, key, i - 1) {
      FirstSetsShift(lines, section, wanted, key, i);
    }
    forall i | 0 < i < |lines| ensures NoBracket(lines, 0, i) <==> NoBracket(rest, 0, i - 1) {
      assert forall j | 0 <= j < i :: rest[j] == lines[j + 1];
      assert forall j | 1 <= j <= i :: lines[j] == rest[j - 1];
    }
    if i :| 0 <= i < |rest| && FirstSets(rest, next, wanted, key, i) && NoBracket(rest, 0, i) {
      assert FirstSets(lines, section, wanted, key, i + 1) && NoBracket(lines, 0, i + 1);
    }
  }

  lemma FirstSetsShift(lines: seq<string>, section: string, wanted: string, key: string, i: nat)
    requires 0 < i < |lines| && !Sets(lines, section, wanted, key, 0)
    ensures FirstSets(lines, section, wanted, key, i) <==> FirstSets(lines[1..], NextSection(lines[0], section), wanted, key, i - 1)
  {
    hide Sets;
    var rest, next := lines[1..], NextSection(lines[0], section);
    forall j | 0 < j < |lines| ensures Sets(lines, section, wanted, key, j) <==> Sets(rest, next, wanted, key, j - 1) {
      SetsShift(lines, section, wanted, key, j);
    }
    assert forall j | 0 <= j < |rest| :: Sets(rest, next, wanted, key, j) == Sets(lines, section, wanted, key, j + 1);
  }

  // Some line is the first that sets the key, and stands in the first block of the section.
  ghost predicate Reachable(lines: seq<string>, section: string, wanted: string, key: string) {
    exists i | 0 <= i < |lines| :: FirstSets(lines, section, wanted, key, i) && InFirstBlock(lines, wanted, i)
  }

  lemma {:induction false} FoundAfterOpening(lines: seq<string>, section: string, wanted: string, key: string)
    requires !SameName(section, wanted) && wanted != [] && key != []
    ensures LookupIn(lines, wanted, key).Some? <==> Reachable(lines, section, wanted, key)
    ensures LookupIn(lines, wanted, key).Some? ==> LookupIn(lines, wanted, key) == MatchIn(lines, section, wanted, key)
  {
    hide FirstSets, InFirstBlock, Reachable;
    if lines == [] {
      NoLines(section, wanted, key);
    } else {
      var rest, next := lines[1..], NextSection(lines[0], section);
      SectionLine(lines[0], section, wanted);
      if IsSection(lines[0], wanted) {
        FoundInBlock(rest, next, wanted, key);
        OpenedHere(lines, section, wanted, key);
      } else {
        FoundAfterOpening(rest, next, wanted, key);
        NotOpenedHere(lines, section, wanted, key);
      }
    }
  }

  lemma NoLines(section: string, wanted: string, key: string)
    ensures !Reachable([], section, wanted, key)
  {}

  lemma OpenedHere(lines: seq<string>, section: string, wanted: string, key: string)
    requires lines != [] && wanted != [] && IsSection(lines[0], wanted)
    ensures var rest, next := lines[1..], NextSection(lines[0], section);
      Reachable(lines, section, wanted, key) <==>
      exists i | 0 <= i < |rest| :: FirstSets(rest, next, wanted, key, i) && NoBracket(rest, 0, i)
  {
    hide IsSection, Bracket, FirstSets;
    var rest, next := lines[1..], NextSection(lines[0], section);
    assert !Sets(lines, section, wanted, key, 0) by { SectionLine(lines[0], section, wanted); }
    assert forall o :: FirstOpening(lines, wanted, o) <==> o == 0;
    forall i | 0 < i < |lines|
      ensures FirstSets(lines, section, wanted, key, i) <==> FirstSets(rest, next, wanted, key, i - 1)
      ensures InFirstBlock(lines, wanted, i) <==> NoBracket(rest, 0, i - 1)
    {
      FirstSetsShift(lines, section, wanted, key, i);
      BlockOfFirst(lines, wanted, i);
      assert forall j | 0 <= j < i :: rest[j] == lines[j + 1];
      assert forall j | 1 <= j <= i :: lines[j] == rest[j - 1];
    }
    assert !FirstSets(lines, section, wanted, key, 0) by { NotFirst(lines, section, wanted, key); }
    if i :| 0 <= i < |rest| && FirstSets(rest, next, wanted, key, i) && NoBracket(rest, 0, i) {
      assert FirstSets(lines, section, wanted, key, i + 1) && InFirstBlock(lines, wanted, i + 1);
    }
  }

  lemma BlockOfFirst(lines: seq<string>, wanted: string, i: nat)
    requires 0 < i < |lines| && wanted != [] && IsSection(lines[0], wanted)
    ensures InFirstBlock(lines, wanted, i) <==> NoBracket(lines, 1, i)
  {
    hide IsSection, NoBracket;
    if InFirstBlock(lines, wanted, i) {
      var o :| 0 <= o < i && FirstOpening(lines, wanted, o) && NoBracket(lines, o + 1, i);
      assert o == 0;
    }
    if NoBracket(lines, 1, i) {
      var o: nat := 0;
      assert FirstOpening(lines, wanted, o) && NoBracket(lines, o + 1, i);
    }
  }

  lemma NotFirst(lines: seq<string>, section: string, wanted: string, key: string)
    requires lines != [] && !Sets(lines, section, wanted, key, 0)
    ensures !FirstSets(lines, section, wanted, key, 0)
  {}

  lemma NotOpenedHere(lines: seq<string>, section: string, wanted: string, key: string)
    requires lines != [] && wanted != [] && !IsSection(lines[0], wanted) && !SameName(section, wanted)
    ensures var rest, next := lines[1..], NextSection(lines[0], section);
      Reachable(lines, section, wanted, key) <==> Reachable(rest, next, wanted, key)
  {
    hide Bracket, FirstSets, InFirstBlock;
    var rest, next := lines[1..], NextSection(lines[0], section);
    assert !Sets(lines, section, wanted, key, 0);
    NotFirst(lines, section, wanted, key);
    forall i | 0 < i < |lines|
      ensures FirstSets(lines, section, wanted, key, i) <==> FirstSets(rest, next, wanted, key, i - 1)
      ensures InFirstBlock(lines, wanted, i) <==> InFirstBlock(rest, wanted, i - 1)
    {
      FirstSetsShift(lines, section, wanted, key, i);
      FirstBlockShift(lines, wanted, i);
    }
    if i :| 0 <= i < |rest| && FirstSets(rest, next, wanted, key, i) && InFirstBlock(rest, wanted, i) {
      assert FirstSets(lines, section, wanted, key, i + 1) && InFirstBlock(lines, wanted, i + 1);
    }
  }

  lemma FirstBlockShift(lines: seq<string>, wanted: string, i: nat)
    requires 0 < i < |lines| && wanted != [] && !IsSection(lines[0], wanted)
    ensures InFirstBlock(lines, wanted, i) <==> InFirstBlock(lines[1..], wanted, i - 1)
  {
    hide IsSection, Bracket;
    var rest := lines[1..];
    assert forall j | 0 <= j < |rest| :: rest[j] == lines[j + 1];
    assert forall j | 0 < j < |lines| :: lines[j] == rest[j - 1];
    if InFirstBlock(lines, wanted, i) {
      var o :| 0 <= o < i && FirstOpening(lines, wanted, o) && NoBracket(lines, o + 1, i);
      assert o > 0;
      assert FirstOpening(rest, wanted, o - 1) && NoBracket(rest, o, i - 1);
    }
    if InFirstBlock(rest, wanted, i - 1) {
      var o :| 0 <= o < i - 1 && FirstOpening(rest, wanted, o) && NoBracket(rest, o + 1, i - 1);
      assert FirstOpening(lines, wanted, o + 1) && NoBracket(lines, o + 2, i);
    }
  }

  lemma {:induction false} EmptyKeyNotFound(lines: seq<string>, wanted: string)
    ensures LookupIn(lines, wanted, []).None? && FindIn(lines, []).None?
  {
    if lines != [] { EmptyKeyNotFound(lines[1..], wanted); }
  }

  lemma FoundIffReachable(lines: seq<string>, wanted: string, key: string)
    ensures LookupIn(lines, wanted, key).Some? <==> key != [] && Reachable(lines, [], wanted, key)
    ensures LookupIn(lines, wanted, key).Some? ==> LookupIn(lines, wanted, key) == MatchIn(lines, [], wanted, key)
  {
    hide FirstSets;
    if key == [] {
      EmptyKeyNotFound(lines, wanted);
    } else if wanted == [] {
      FoundInBlock(lines, [], wanted, key);
    } else {
      FoundAfterOpening(lines, [], wanted, key);
    }
  }

  // For every file whose lines fit the buffers, every section and every key: ini_gets finds what
  // ini_browse reports first if and only if nothing is reported, or the first line that sets the key
  // under the section stands before the next '[' line after the section's first opening (and the key
  // is not empty). And what ini_gets finds is always the first match.
  lemma ReadersAgree(text: string, wanted: string, key: string)
    requires LinesFit(text, [])
    ensures var found, first := Lookup(text, wanted, key), FirstMatch(Settings(text, []), wanted, key);
      && (found.Some? ==> found == first)
      && (found == first <==>
            forall i | FirstSets(Lines(text), [], wanted, key, i) :: key != [] && InFirstBlock(Lines(text), wanted, i))
  {
    var lines := Lines(text);
    LooksUpInLines(text, wanted, key);
    MatchesInLines(text, [], wanted, key);
    FoundIffReachable(lines, wanted, key);
    var i := MatchIsFirst(lines, [], wanted, key);
    assert i < |lines| ==> FirstSets(lines, [], wanted, key, i);
    assert forall j | FirstSets(lines, [], wanted, key, j) :: j == i;
  }
}
