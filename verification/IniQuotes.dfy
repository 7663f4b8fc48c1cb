/** Writing a value with quotes and reading it back. */
module IniQuotes {
  import opened IniText

  predicate Blanks(s: string) { forall i | 0 <= i < |s| :: Blank(s[i]) }

  predicate EndsInBackslash(x: string) { x != [] && x[|x| - 1] == '\\' }

  predicate StartsWithQuote(s: string) { s != [] && s[0] == '"' }

  lemma EscapeStep(x: string, rest: string)
    requires x != []
    ensures Escape(x) + rest == EscapeOne(x[0]) + (Escape(x[1..]) + rest)
  {}

  lemma EscapeStartsPlain(x: string, rest: string)
    requires x != [] || !StartsWithQuote(rest)
    ensures !StartsWithQuote(Escape(x) + rest)
  {}

  // Decoding what was escaped gives it back, whatever follows it.
  lemma {:induction false} UnescapeEscape(x: string, rest: string)
    requires !StartsWithQuote(rest)
    ensures Unescape(Escape(x) + rest) == x + Unescape(rest)
  {
    if x == [] {
      assert Escape(x) + rest == rest;
    } else {
      EscapeStep(x, rest);
      UnescapeEscape(x[1..], rest);
      if x[0] != '"' { EscapeStartsPlain(x[1..], rest); }
      Regroup(x, Unescape(rest));
    }
  }

  // Quotes may be doubled instead.
  function Doubled(s: string): string {
    if s == [] then [] else (if s[0] == '"' then ['"', '"'] else [s[0]]) + Doubled(s[1..])
  }

  predicate HasEscapedQuote(s: string) { exists k | 0 <= k < |s| - 1 :: s[k] == '\\' && s[k + 1] == '"' }

  lemma EscapedQuoteRest(s: string)
    requires s != []
    ensures HasEscapedQuote(s) <==> (|s| > 1 && s[0] == '\\' && s[1] == '"') || HasEscapedQuote(s[1..])
  {
    var rest := s[1..];
    assert forall k | 0 <= k < |rest| :: rest[k] == s[k + 1];
    if HasEscapedQuote(rest) {
      var k :| 0 <= k < |rest| - 1 && rest[k] == '\\' && rest[k + 1] == '"';
      assert s[k + 1] == '\\' && s[k + 2] == '"';
    }
    if k :| 0 < k < |s| - 1 && s[k] == '\\' && s[k + 1] == '"' {
      assert rest[k - 1] == '\\' && rest[k] == '"';
    }
  }

  // Decoding what was doubled gives it back exactly if no quote in it stands behind a backslash.
  lemma {:induction false} UnescapeDoubled(x: string)
    ensures Unescape(Doubled(x)) == x <==> !HasEscapedQuote(x)
  {
    hide HasEscapedQuote;
    if x == [] {
      assert !HasEscapedQuote(x) by { NoneInEmpty(); }
    } else {
      var rest, tail := x[1..], Doubled(x[1..]);
      EscapedQuoteRest(x);
      UnescapeDoubled(rest);
      if x[0] == '"' {
        assert Doubled(x)[2..] == tail;
      } else {
        assert Doubled(x) == [x[0]] + tail && Doubled(x)[1..] == tail;
        assert tail != [] ==> tail[0] == rest[0];
      }
      assert x == [x[0]] + rest;
    }
  }

  lemma NoneInEmpty()
    ensures !HasEscapedQuote([])
  {}

  lemma Regroup(x: string, y: string)
    requires x != []
    ensures x + y == [x[0]] + (x[1..] + y)
  {}

  // Inside a string nothing is a comment up to the closing quote; a final
  // backslash makes the scan take that quote for an escaped one.
  lemma {:induction false} ScanQuoted(x: string, rest: string)
    requires !StartsWithQuote(rest)
    ensures CommentAt(Escape(x) + (['"'] + rest), true) == |Escape(x)| + 1 + CommentAt(rest, EndsInBackslash(x))
  {
    var end := ['"'] + rest;
    if x == [] {
      assert Escape(x) + end == end;
    } else {
      var tail := Escape(x[1..]) + end;
      EscapeStep(x, end);
      ScanQuoted(x[1..], rest);
      if x[0] == '"' {
      } else if x == ['\\'] {
        assert ['\\'] + tail == ['\\', '"'] + rest;
      } else {
        if |x| > 1 { EscapeStartsPlain(x[1..], end); }
      }
    }
  }

  lemma ScanFromOpeningQuote(x: string, rest: string)
    requires !StartsWithQuote(rest)
    ensures CommentAt(Quoted(x) + rest, false) == |Quoted(x)| + CommentAt(rest, EndsInBackslash(x))
  {
    var inner := Escape(x) + (['"'] + rest);
    assert Quoted(x) + rest == ['"'] + inner;
    if x == [] {
      assert ['"'] + inner == ['"', '"'] + rest;
    } else {
      EscapeStartsPlain(x, ['"'] + rest);
      ScanQuoted(x, rest);
    }
  }

  lemma {:induction false} ScanBlanks(ws: string, rest: string, inside: bool)
    requires Blanks(ws)
    ensures CommentAt(ws + rest, inside) == |ws| + CommentAt(rest, inside)
  {
    if ws == [] {
      assert ws + rest == rest;
    } else {
      assert ws + rest == [ws[0]] + (ws[1..] + rest);
      ScanBlanks(ws[1..], rest, inside);
    }
  }

  // Exactly the trailing blanks go.
  lemma StripUpTo(s: string, ws: string)
    requires Blanks(ws)
    requires s == [] || !Blank(s[|s| - 1])
    ensures StripTrailing(s + ws) == s
  {
    var t := StripTrailing(s + ws);
    assert s != [] ==> (s + ws)[|s| - 1] == s[|s| - 1];
    assert forall i | |s| <= i < |s + ws| :: (s + ws)[i] == ws[i - |s|];
  }

  lemma CleanUpTo(x: string, s: string, ws: string)
    requires Blanks(ws) && Quoted(x) + ws <= s
    requires CommentAt(s, false) == |Quoted(x)| + |ws|
    ensures Clean(s) == Cleaned(Escape(x), Dequote)
  {
    var q := Quoted(x);
    assert s[..CommentAt(s, false)] == q + ws;
    StripUpTo(q, ws);
    assert q[1..|q| - 1] == Escape(x);
  }

  // Quotes, ';', '#' and backslashes inside a quoted value all survive the
  // comment stripper, which hands on the escaped text and asks for decoding.
  lemma CleanQuoted(x: string, ws: string)
    requires Blanks(ws)
    ensures Clean(Quoted(x) + ws) == Cleaned(Escape(x), Dequote)
  {
    ScanFromOpeningQuote(x, ws);
    ScanBlanks(ws, [], EndsInBackslash(x));
    assert ws + [] == ws;
    CleanUpTo(x, Quoted(x) + ws, ws);
  }

  lemma ValueOfQuoted(x: string, s: string)
    requires Clean(s) == Cleaned(Escape(x), Dequote)
    ensures Value(s) == x
  {
    assert Escape(x) + [] == Escape(x);
    UnescapeEscape(x, []);
    assert x + [] == x;
  }

  // Without adding quotes save_strncpy stores the text, decoded if that is asked for, or else its longest prefix
  // that leaves room for the NUL.
  lemma SavedIsLongest(s: string, maxlen: nat, option: Quotes, p: string)
    requires maxlen > 0 && !option.Enquote?
    ensures var text, t := if option.Dequote? then Unescape(s) else s, Saved(s, maxlen, option);
      t <= text && |t| < maxlen && (t == text <==> |text| < maxlen) && (p <= text && |p| < maxlen ==> p <= t)
  {
    hide Unescape;
  }

  // ENQUOTE, cleanstring, DEQUOTE: what comes back is the part that was stored.
  lemma StoredComesBack(s: string, maxlen: nat, ws: string)
    requires maxlen >= 3 && Blanks(ws)
    ensures Value(Saved(s, maxlen, Enquote) + ws) == Fitting(s, maxlen - 3)
  {
    var f := Fitting(s, maxlen - 3);
    CleanQuoted(f, ws);
    ValueOfQuoted(f, Quoted(f) + ws);
  }

  // That is the longest prefix whose escaped form fits between two quotes, and
  // so the whole value exactly when it fits.
  lemma QuoteRoundTrip(s: string, maxlen: nat, ws: string, p: string)
    requires maxlen >= 3 && Blanks(ws)
    ensures var v := Value(Saved(s, maxlen, Enquote) + ws);
            && v <= s
            && |Escape(v)| <= maxlen - 3
            && (p <= s && |Escape(p)| <= maxlen - 3 ==> p <= v)
            && (v == s <==> |Escape(s)| <= maxlen - 3)
  {
    hide Value, Saved, Escape, Fitting, Blanks;
    StoredComesBack(s, maxlen, ws);
    FittingIsLongest(s, maxlen - 3, p);
    FittingIsLongest(s, maxlen - 3, s);
  }

  // A comment takes the closing quote with it when the value ends in a backslash.
  lemma QuotedThenComment(x: string, ws: string, mark: char, comment: string)
    requires Blanks(ws) && (mark == ';' || mark == '#')
    ensures Value(Quoted(x) + (ws + ([mark] + comment))) == x <==> !EndsInBackslash(x)
  {
    var rest := ws + ([mark] + comment);
    var s := Quoted(x) + rest;
    assert rest[0] == if ws == [] then mark else ws[0];
    ScanFromOpeningQuote(x, rest);
    ScanBlanks(ws, [mark] + comment, EndsInBackslash(x));
    if EndsInBackslash(x) {
      assert s[|Quoted(x)| + |ws|] == mark;
      CommentKept(x, s, |Quoted(x)| + |ws|);
    } else {
      assert Quoted(x) + ws <= s;
      CleanUpTo(x, s, ws);
      ValueOfQuoted(x, s);
    }
  }

  lemma CommentKept(x: string, s: string, n: nat)
    requires EndsInBackslash(x)
    requires Quoted(x) <= s && |Quoted(x)| <= n < CommentAt(s, false) && !Blank(s[n])
    ensures Value(s) != x
  {
    hide Unescape, Escape, CommentAt, StripTrailing;
    var t := StripTrailing(s[..CommentAt(s, false)]);
    StripKeeps(s, Quoted(x), n);
    if t[|t| - 1] == '"' {
      LongerThanQuoted(x, t);
    } else {
      EscapeIsLonger(x);
    }
  }

  lemma StripKeeps(s: string, p: string, n: nat)
    requires p <= s && |p| <= n < CommentAt(s, false) && !Blank(s[n])
    ensures p <= StripTrailing(s[..CommentAt(s, false)])
    ensures |p| < |StripTrailing(s[..CommentAt(s, false)])|
  {
    var kept := s[..CommentAt(s, false)];
    assert kept[n] == s[n];
    assert n < |StripTrailing(kept)|;
  }

  lemma LongerThanQuoted(x: string, t: string)
    requires EndsInBackslash(x)
    requires Quoted(x) <= t && |Quoted(x)| < |t|
    ensures Unescape(t[1..|t| - 1]) != x
  {
    BetweenQuotes(Escape(x), t);
    var y := x[..|x| - 1];
    assert x == y + ['\\'];
    DecodedDiffers(y, t[|Quoted(x)|..|t| - 1]);
  }

  lemma BetweenQuotes(e: string, t: string)
    requires ['"'] + e + ['"'] <= t && |e| + 2 < |t|
    ensures t[1..|t| - 1] == e + (['"'] + t[|e| + 2..|t| - 1])
  {
    var q := ['"'] + e + ['"'];
    assert forall i | 0 <= i < |e| :: t[1 + i] == q[1 + i] == e[i];
    assert t[|e| + 1] == q[|e| + 1] == '"';
  }

  lemma DecodedDiffers(y: string, r: string)
    ensures Unescape(Escape(y + ['\\']) + (['"'] + r)) != y + ['\\']
  {
    var decoded := ['"'] + Unescape(r);
    EscapeAppend(y, '\\');
    assert Escape(y) + ['\\'] + (['"'] + r) == Escape(y) + (['\\', '"'] + r);
    UnescapeEscape(y, ['\\', '"'] + r);
    assert (y + decoded)[|y|] == '"' != (y + ['\\'])[|y|];
  }

  lemma {:induction false} EscapeIsLonger(x: string)
    ensures |Escape(x)| >= |x|
  {
    if x != [] { EscapeIsLonger(x[1..]); }
  }
}
