/** save_strncpy on memory that it shares with its source. Quoting writes ahead of what it
    reads, and the assertion in front of it does not keep the two apart. */
module IniOverlap {
  import opened IniText
  import opened IniQuotes

  // The C string at `at` is s.
  ghost predicate HoldsAt(mem: seq<char>, at: nat, s: string) {
    at + |s| < |mem| && Spells(mem, at, s) && mem[at + |s|] == '\0' && CString(s)
  }

  ghost predicate Spells(mem: seq<char>, at: nat, w: string) {
    at + |w| <= |mem| && forall i | 0 <= i < |w| :: mem[at + i] == w[i]
  }

  // ini.c:72-83 from the point where d characters are written and r are read
  function Enquoting(mem: seq<char>, to: nat, from: nat, maxlen: nat, d: nat, r: nat): (m: seq<char>)
    requires maxlen >= 3 && to + maxlen <= |mem| && from + maxlen <= |mem|
    requires r < d <= maxlen - 2
    ensures |m| == |mem|
    decreases maxlen - d
  {
    var c := mem[from + r];
    if c == '\0' || d >= maxlen - 2 || (c == '"' && d >= maxlen - 3) then
      mem[to + d := '"'][to + d + 1 := '\0']
    else if c == '"' then
      var m := mem[to + d := '\\'];
      Enquoting(m[to + d + 1 := m[from + r]], to, from, maxlen, d + 2, r + 1)
    else
      Enquoting(mem[to + d := c], to, from, maxlen, d + 1, r + 1)
  }

  lemma EnquoteOne(mem: seq<char>, to: nat, from: nat, maxlen: nat, d: nat, r: nat)
    requires maxlen >= 3 && to + maxlen <= |mem| && from + maxlen <= |mem|
    requires r < d < maxlen - 2 && mem[from + r] != '\0' && (mem[from + r] == '"' ==> d < maxlen - 3)
    ensures Enquoting(mem, to, from, maxlen, d, r) ==
      if mem[from + r] == '"' then
        Enquoting(mem[to + d := '\\'][to + d + 1 := if from + r == to + d then '\\' else '"'], to, from, maxlen, d + 2, r + 1)
      else Enquoting(mem[to + d := mem[from + r]], to, from, maxlen, d + 1, r + 1)
  {}

  lemma EnquoteEnd(mem: seq<char>, to: nat, from: nat, maxlen: nat, d: nat, r: nat)
    requires maxlen >= 3 && to + maxlen <= |mem| && from + maxlen <= |mem| && r < d <= maxlen - 2
    requires mem[from + r] == '\0' || d == maxlen - 2 || (mem[from + r] == '"' && d == maxlen - 3)
    ensures Enquoting(mem, to, from, maxlen, d, r) == mem[to + d := '"'][to + d + 1 := '\0']
  {}

  function Enquoted(mem: seq<char>, to: nat, from: nat, maxlen: nat): (m: seq<char>)
    requires maxlen >= 3 && to + maxlen <= |mem| && from + maxlen <= |mem|
    ensures |m| == |mem|
  {
    Enquoting(mem[to := '"'], to, from, maxlen, 1, 0)
  }

  // ini.c:86-92, likewise
  function Decoding(mem: seq<char>, to: nat, from: nat, maxlen: nat, d: nat, r: nat): (m: seq<char>)
    requires to + maxlen <= |mem| && from + 2 * maxlen <= |mem|
    requires d < maxlen && r <= 2 * d
    ensures |m| == |mem|
    decreases maxlen - d
  {
    if mem[from + r] == '\0' || d >= maxlen - 1 then mem[to + d := '\0']
    else
      var n := if (mem[from + r] == '"' || mem[from + r] == '\\') && mem[from + r + 1] == '"' then 2 else 1;
      Decoding(mem[to + d := mem[from + r + n - 1]], to, from, maxlen, d + 1, r + n)
  }

  lemma DecodingOne(mem: seq<char>, to: nat, from: nat, maxlen: nat, d: nat, r: nat, n: nat)
    requires to + maxlen <= |mem| && from + 2 * maxlen <= |mem| && d < maxlen - 1 && r <= 2 * d
    requires mem[from + r] != '\0'
    requires n == if (mem[from + r] == '"' || mem[from + r] == '\\') && mem[from + r + 1] == '"' then 2 else 1
    ensures Decoding(mem, to, from, maxlen, d, r) ==
      Decoding(mem[to + d := mem[from + r + n - 1]], to, from, maxlen, d + 1, r + n)
  {}

  lemma DecodingEnd(mem: seq<char>, to: nat, from: nat, maxlen: nat, d: nat, r: nat)
    requires to + maxlen <= |mem| && from + 2 * maxlen <= |mem| && d < maxlen && r <= 2 * d
    requires mem[from + r] == '\0' || d == maxlen - 1
    ensures Decoding(mem, to, from, maxlen, d, r) == mem[to + d := '\0']
  {}

  // Between the quotes y has been written: at `to` stands its quoted form, still open.
  ghost predicate Written(mem: seq<char>, to: nat, y: string) {
    CString(y) && Spells(mem, to, ['"'] + Escape(y))
  }

  lemma WriteOne(mem: seq<char>, to: nat, y: string, c: char, m: seq<char>)
    requires Written(mem, to, y) && c != '\0' && |m| == |mem|
    requires Spells(m, to + 1 + |Escape(y)|, EscapeOne(c))
    requires forall i | to <= i < to + 1 + |Escape(y)| :: m[i] == mem[i]
    ensures Written(m, to, y + [c])
  {
    hide Escape, EscapeOne;
    EscapeAppend(y, c);
    var w, e := ['"'] + Escape(y), EscapeOne(c);
    assert ['"'] + Escape(y + [c]) == w + e;
    forall i | 0 <= i < |w + e| ensures m[to + i] == (w + e)[i] {
      if i < |w| { assert mem[to + i] == w[i]; } else { assert m[to + |w| + (i - |w|)] == e[i - |w|]; }
    }
  }

  lemma Close(mem: seq<char>, to: nat, y: string)
    requires Written(mem, to, y) && to + 3 + |Escape(y)| <= |mem|
    ensures var d := 1 + |Escape(y)|; HoldsAt(mem[to + d := '"'][to + d + 1 := '\0'], to, Quoted(y))
  {
    hide Escape;
    var w := ['"'] + Escape(y);
    var m := mem[to + |w| := '"'][to + |w| + 1 := '\0'];
    assert Quoted(y) == w + ['"'];
    assert CString(Escape(y));
    forall i | 0 <= i < |w| ensures m[to + i] == w[i] { assert mem[to + i] == w[i]; }
  }

  // An escaped quote, or two backslashes when the first one falls on the quote to be copied
  lemma WriteQuote(mem: seq<char>, to: nat, y: string, at: nat) returns (z: string)
    requires Written(mem, to, y) && to + 3 + |Escape(y)| <= |mem| && at < |mem| && mem[at] == '"'
    ensures var d := 1 + |Escape(y)|;
      var m := mem[to + d := '\\'];
      Written(m[to + d + 1 := m[at]], to, z) && |Escape(z)| == |Escape(y)| + 2 && |z| > |y|
  {
    hide Escape;
    var d := 1 + |Escape(y)|;
    var m := mem[to + d := '\\'];
    var m2 := m[to + d + 1 := m[at]];
    if at == to + d {
      z := y + ['\\'];
      EscapeAppend(y, '\\');
      WriteOne(mem, to, y, '\\', m);
      EscapeAppend(z, '\\');
      WriteOne(m, to, z, '\\', m2);
      z := z + ['\\'];
    } else {
      z := y + ['"'];
      EscapeAppend(y, '"');
      WriteOne(mem, to, y, '"', m2);
    }
  }

  // Whatever it reads, quoting leaves some quoted text z. It ends for want of room, or at a
  // NUL that it has not overwritten, and then z is as long as what was read.
  lemma {:induction false} LeavesQuoted(mem: seq<char>, to: nat, from: nat, maxlen: nat, d: nat, r: nat, y: string)
    returns (z: string, read: nat)
    requires maxlen >= 3 && to + maxlen <= |mem| && from + maxlen <= |mem| && to <= from
    requires r < d <= maxlen - 2 && d == 1 + |Escape(y)| && r <= |y| && Written(mem, to, y)
    ensures HoldsAt(Enquoting(mem, to, from, maxlen, d, r), to, Quoted(z))
    ensures |Escape(z)| >= maxlen - 4 || (read <= |z| && to + 1 + |Escape(z)| <= from + read)
    decreases maxlen - d
  {
    hide Escape, CString;
    var c := mem[from + r];
    if c == '\0' || d >= maxlen - 2 || (c == '"' && d >= maxlen - 3) {
      Close(mem, to, y);
      z, read := y, r;
      if c == '\0' && from + r < to + d { NoNulWritten(mem, to, y, from + r); }
    } else if c == '"' {
      var m := mem[to + d := '\\'];
      var m2 := m[to + d + 1 := m[from + r]];
      var y2 := WriteQuote(mem, to, y, from + r);
      z, read := LeavesQuoted(m2, to, from, maxlen, d + 2, r + 1, y2);
    } else {
      WriteOne(mem, to, y, c, mem[to + d := c]);
      EscapeAppend(y, c);
      z, read := LeavesQuoted(mem[to + d := c], to, from, maxlen, d + 1, r + 1, y + [c]);
    }
  }

  lemma NoNulWritten(mem: seq<char>, to: nat, y: string, at: nat)
    requires Written(mem, to, y) && to <= at < to + 1 + |Escape(y)|
    ensures mem[at] != '\0'
  {
    hide Escape;
    var w := ['"'] + Escape(y);
    assert CString(Escape(y));
    assert mem[to + (at - to)] == w[at - to];
  }

  lemma NoNulInside(mem: seq<char>, at: nat, s: string)
    requires HoldsAt(mem, at, s)
    ensures forall i | at <= i < at + |s| :: mem[i] != '\0'
  {
    forall i | at <= i < at + |s| ensures mem[i] != '\0' { assert mem[at + (i - at)] == s[i - at]; }
  }

  lemma OneString(mem: seq<char>, at: nat, s: string, t: string)
    requires HoldsAt(mem, at, s) && HoldsAt(mem, at, t)
    ensures s == t
  {
    NoNulInside(mem, at, s);
    NoNulInside(mem, at, t);
    forall i | 0 <= i < |s| && i < |t| ensures s[i] == t[i] { assert mem[at + i] == s[i]; }
  }

  lemma QuotedIsInjective(s: string, t: string)
    requires Quoted(s) == Quoted(t)
    ensures s == t
  {
    hide Escape;
    assert Escape(s) == Quoted(s)[1..|Quoted(s)| - 1] == Escape(t);
    UnescapeEscape(s, []);
    UnescapeEscape(t, []);
    assert Escape(s) + [] == Escape(t) + [] && s + [] == s && t + [] == t;
  }

  // With characters to spare, a value that is quoted onto itself or into the text in front of
  // it is spoiled unless the closing quote lands before the end of the source.
  lemma QuotingSpoilsItself(mem: seq<char>, to: nat, from: nat, maxlen: nat, s: string)
    requires to <= from && to + maxlen <= |mem| && from + maxlen <= |mem|
    requires HoldsAt(mem, from, s) && |Escape(s)| + 4 < maxlen
    requires to + |Escape(s)| >= from + |s|
    ensures !HoldsAt(Enquoted(mem, to, from, maxlen), to, Quoted(s))
  {
    assert Written(mem[to := '"'], to, []);
    var z, read := LeavesQuoted(mem[to := '"'], to, from, maxlen, 1, 0, []);
    if HoldsAt(Enquoted(mem, to, from, maxlen), to, Quoted(s)) {
      OneString(Enquoted(mem, to, from, maxlen), to, Quoted(s), Quoted(z));
      QuotedIsInjective(s, z);
    }
  }

  // ---------- the escaping copy, step by step ----------

  lemma NothingEscaped(s: string)
    ensures Escape(s[..0]) == []
  {}

  lemma NextEscaped(s: string, r: nat)
    requires r < |s|
    ensures Escape(s[..r + 1]) == Escape(s[..r]) + EscapeOne(s[r])
  {
    assert s[..r + 1] == s[..r] + [s[r]];
    EscapeAppend(s[..r], s[r]);
  }

  lemma StopsThere(s: string, maxlen: nat, r: nat)
    requires maxlen >= 3 && r <= |s| && |Escape(s[..r])| <= maxlen - 3
    requires r == |s| || |Escape(s[..r])| == maxlen - 3 || (s[r] == '"' && |Escape(s[..r])| == maxlen - 4)
    ensures Fitting(s, maxlen - 3) == s[..r]
  {
    hide Escape, Fitting;
    if r < |s| { NextEscaped(s, r); }
    FittingEnds(s, maxlen - 3, r);
  }

  // Copying stops at the longest prefix that fits.
  lemma {:induction false} FittingEnds(s: string, room: nat, r: nat)
    requires r <= |s| && |Escape(s[..r])| <= room
    requires r < |s| ==> |Escape(s[..r + 1])| > room
    ensures Fitting(s, room) == s[..r]
  {
    if r > 0 {
      assert s[..r][1..] == s[1..][..r - 1];
      if r < |s| { assert s[..r + 1][1..] == s[1..][..r]; }
      FittingEnds(s[1..], room - |EscapeOne(s[0])|, r - 1);
    } else if s != [] {
      assert s[..1] == [s[0]];
    }
  }

  // Quoting stays behind what it still has to read.
  predicate StaysBehind(to: nat, from: nat, s: string, maxlen: nat)
    requires maxlen >= 3
  {
    var f := Fitting(s, maxlen - 3);
    to + |Escape(f)| < from + |f|
  }

  // A copy that ends behind its source was never ahead of it.
  lemma BehindSoFar(to: nat, from: nat, s: string, maxlen: nat, r: nat)
    requires maxlen >= 3 && StaysBehind(to, from, s, maxlen)
    requires r <= |s| && |Escape(s[..r])| <= maxlen - 3
    ensures to + 1 + |Escape(s[..r])| <= from + r
  {
    hide Escape, Fitting;
    FittingIsLongest(s, maxlen - 3, s[..r]);
    EscapeGrows(s[..r], Fitting(s, maxlen - 3));
  }

  lemma {:induction false} EscapeGrows(x: string, y: string)
    requires x <= y
    ensures |Escape(y)| - |Escape(x)| >= |y| - |x|
  {
    if x == [] {
      if y != [] { EscapeGrows(x, y[1..]); }
    } else {
      EscapeGrows(x[1..], y[1..]);
    }
  }

  // The first n characters of s and its NUL, as far as they go
  ghost predicate Readable(mem: seq<char>, at: nat, s: string, n: nat) {
    && at + |s| < |mem| && CString(s)
    && (forall i | 0 <= i < |s| && i < n :: s[i] == mem[at + i])
    && (|s| < n ==> mem[at + |s|] == '\0')
  }

  lemma ReadAt(mem: seq<char>, at: nat, s: string, n: nat, r: nat)
    requires Readable(mem, at, s, n) && r < n && r <= |s|
    ensures at + r < |mem| && mem[at + r] == (if r < |s| then s[r] else '\0')
    ensures mem[at + r] != '\0' ==> r < |s|
  {}

  // r characters of s are copied into memory that was `was`, and nothing else has changed.
  ghost predicate Underway(mem: seq<char>, was: seq<char>, to: nat, d: nat, s: string, r: nat) {
    && r <= |s| && |mem| == |was| && d == 1 + |Escape(s[..r])|
    && forall i | 0 <= i < |mem| :: mem[i] == if to < i < to + d then Escape(s[..r])[i - to - 1] else was[i]
  }

  lemma UnderwayLength(mem: seq<char>, was: seq<char>, to: nat, d: nat, s: string, r: nat)
    requires Underway(mem, was, to, d, s, r)
    ensures r <= |s| && d == 1 + |Escape(s[..r])|
  {}

  lemma NotYetWritten(mem: seq<char>, was: seq<char>, to: nat, d: nat, s: string, r: nat, at: nat)
    requires Underway(mem, was, to, d, s, r) && at < |mem| && (at < to || at >= to + d)
    ensures mem[at] == was[at]
  {}

  lemma UnderwayNext(mem: seq<char>, was: seq<char>, to: nat, d: nat, s: string, r: nat, next: seq<char>)
    requires Underway(mem, was, to, d, s, r) && r < |s| && to + d + |EscapeOne(s[r])| <= |mem|
    requires next == if s[r] == '"' then mem[to + d := '\\'][to + d + 1 := '"'] else mem[to + d := s[r]]
    ensures Underway(next, was, to, d + |EscapeOne(s[r])|, s, r + 1)
  {
    hide Escape;
    NextEscaped(s, r);
  }

  // A copy: from `source` to `was`, which are one memory or two. It is clear if nothing is
  // written over before it is read.
  datatype Job = Job(clear: bool, same: bool, source: seq<char>, was: seq<char>, to: nat, from: nat, maxlen: nat, s: string)

  ghost predicate Legible(j: Job) {
    && j.maxlen >= 3 && j.to + j.maxlen <= |j.was| && (j.same ==> j.source == j.was)
    && if j.clear then
         Readable(j.source, j.from, j.s, j.maxlen) && (j.same ==> j.to >= j.from + j.maxlen || StaysBehind(j.to, j.from, j.s, j.maxlen))
       else
         j.same && j.from + j.maxlen <= |j.was|
  }

  // Where the copy stands when d characters are written and r are read
  ghost predicate Halfway(j: Job, mem: seq<char>, source: seq<char>, d: nat, r: nat) {
    && r < d <= j.maxlen - 2 && |mem| == |j.was| && j.to + j.maxlen <= |mem| && j.from + r < |source|
    && if j.clear then
         && CString(j.s) && Underway(mem, j.was, j.to, d, j.s, r)
         && source[j.from + r] == (if r < |j.s| then j.s[r] else '\0')
         && (j.same && j.to < j.from + j.maxlen ==> j.to + d <= j.from + r)
       else
         && source == mem && j.from + j.maxlen <= |mem|
         && Enquoting(j.was, j.to, j.from, j.maxlen, 1, 0) == Enquoting(mem, j.to, j.from, j.maxlen, d, r)
  }

  lemma Begins(j: Job)
    requires Legible(j)
    ensures Halfway(j, j.was, j.source, 1, 0)
  {
    hide StaysBehind;
    NothingEscaped(j.s);
    if j.clear {
      ReadAt(j.source, j.from, j.s, j.maxlen, 0);
      if j.same && j.to < j.from + j.maxlen { BehindSoFar(j.to, j.from, j.s, j.maxlen, 0); }
    }
  }

  // One character more is written, with a backslash if it is a quote; it is read again for the copy.
  ghost predicate Writes(j: Job, mem: seq<char>, next: seq<char>, c: char, d: nat, r: nat) {
    && j.to + d + 1 < |mem|
    && next == if c != '"' then mem[j.to + d := c]
       else mem[j.to + d := '\\'][j.to + d + 1 := if j.same && j.to + d == j.from + r then '\\' else '"']
  }

  // A clear copy reads each character where nothing has been written yet.
  lemma ClearGoesOn(j: Job, mem: seq<char>, next: seq<char>, left: seq<char>, d: nat, r: nat)
    requires j.clear && Legible(j) && r < d < j.maxlen - 2 && r < |j.s| && (j.s[r] == '"' ==> d < j.maxlen - 3)
    requires CString(j.s) && |mem| == |j.was| && Underway(mem, j.was, j.to, d, j.s, r) && (j.same && j.to < j.from + j.maxlen ==> j.to + d <= j.from + r)
    requires Writes(j, mem, next, j.s[r], d, r) && left == if j.same then next else j.source
    ensures Halfway(j, next, left, d + |EscapeOne(j.s[r])|, r + 1)
  {
    hide Escape, Fitting, StaysBehind, Readable, Underway, Enquoting;
    var n := |EscapeOne(j.s[r])|;
    UnderwayLength(mem, j.was, j.to, d, j.s, r);
    NextEscaped(j.s, r);
    if j.same && j.to < j.from + j.maxlen { BehindSoFar(j.to, j.from, j.s, j.maxlen, r + 1); }
    UnderwayNext(mem, j.was, j.to, d, j.s, r, next);
    ReadAt(j.source, j.from, j.s, j.maxlen, r + 1);
    if j.same { NotYetWritten(next, j.was, j.to, d + n, j.s, r + 1, j.from + r + 1); }
  }

  lemma GoesOn(j: Job, mem: seq<char>, source: seq<char>, next: seq<char>, left: seq<char>, d: nat, r: nat)
    requires Legible(j) && Halfway(j, mem, source, d, r)
    requires var c := source[j.from + r];
      && c != '\0' && d < j.maxlen - 2 && (c == '"' ==> d < j.maxlen - 3)
      && next == if c != '"' then mem[j.to + d := c]
         else mem[j.to + d := '\\'][j.to + d + 1 := if j.same && j.to + d == j.from + r then '\\' else '"']
    requires left == if j.same then next else j.source
    ensures j.from + r + 1 < |left|
    ensures Halfway(j, next, left, if source[j.from + r] == '"' then d + 2 else d + 1, r + 1)
  {
    hide Escape, Fitting, StaysBehind, Readable, Underway, Enquoting, CString;
    if j.clear {
      assert source[j.from + r] == j.s[r];
      ClearGoesOn(j, mem, next, left, d, r);
    } else {
      EnquoteOne(mem, j.to, j.from, j.maxlen, d, r);
    }
  }

  // Only the closing quote is missing.
  ghost predicate Copied(j: Job, mem: seq<char>, d: nat, r: nat) {
    && j.maxlen >= 3 && d <= j.maxlen - 2 && |mem| == |j.was| && j.to + j.maxlen <= |mem|
    && if j.clear then
         r <= |j.s| && Fitting(j.s, j.maxlen - 3) == j.s[..r] && Underway(mem, j.was, j.to, d, j.s, r)
       else
         && j.from + j.maxlen <= |mem|
         && mem[j.to + d := '"'][j.to + d + 1 := '\0'] == Enquoting(j.was, j.to, j.from, j.maxlen, 1, 0)
  }

  lemma Ends(j: Job, mem: seq<char>, source: seq<char>, d: nat, r: nat)
    requires j.maxlen >= 3 && Halfway(j, mem, source, d, r)
    requires var c := source[j.from + r]; c == '\0' || d == j.maxlen - 2 || (c == '"' && d == j.maxlen - 3)
    ensures Copied(j, mem, d, r)
  {
    hide Escape, Fitting, Underway, Enquoting;
    if j.clear {
      UnderwayLength(mem, j.was, j.to, d, j.s, r);
      StopsThere(j.s, j.maxlen, r);
    } else {
      EnquoteEnd(mem, j.to, j.from, j.maxlen, d, r);
    }
  }
}
