/** The character buffer work of the INI parser, in place. Where the C code has a
    pointer, a method has an array and an index; the ghost parameter s is the C
    string that is there. */
module IniBuffer {
  import opened IniOverlap
  import opened IniText
  import opened Wrappers

  // The C string at `at` is s.
  ghost predicate Holds(b: array<char>, at: nat, s: string)
    reads b
  {
    && at + |s| < b.Length
    && b[at + |s|] == '\0'
    && CString(s)
    && forall i | 0 <= i < |s| :: s[i] == b[at + i]
  }

  method StrLen(b: array<char>, at: nat, ghost s: string) returns (n: nat)
    requires Holds(b, at, s)
    ensures n == |s|
  {
    n := 0;
    while b[at + n] != '\0'
      invariant n <= |s|
      invariant n < |s| ==> s[n] == b[at + n]
      decreases |s| - n
    {
      assert n < |s|;
      n := n + 1;
    }
  }

  // -1 stands for NULL.
  method StrChr(b: array<char>, at: nat, c: char, ghost s: string) returns (p: int)
    requires Holds(b, at, s) && c != '\0'
    ensures p == if IndexOf(s, c) < |s| then at + IndexOf(s, c) else -1
  {
    p := at;
    while b[p] != '\0' && b[p] != c
      invariant at <= p <= at + |s|
      invariant forall i | 0 <= i < p - at :: s[i] != c
      decreases at + |s| - p
    {
      assert s[p - at] == b[p];
      p := p + 1;
    }
    if p < at + |s| { assert s[p - at] == b[p]; }
    if b[p] == '\0' { p := -1; }
  }

  method SkipLeadingAt(b: array<char>, at: nat, ghost s: string) returns (p: nat)
    requires Holds(b, at, s)
    ensures p == at + LeadingBlanks(s)
    ensures Holds(b, p, SkipLeading(s))
  {
    p := at;
    while '\0' < b[p] <= ' '
      invariant at <= p <= at + |s|
      invariant forall i | 0 <= i < p - at :: Blank(s[i])
      invariant p < at + |s| ==> b[p] == s[p - at]
      decreases at + |s| - p
    {
      p := p + 1;
    }
  }

  // The characters of s stand before `end`, with or without a NUL after them.
  method SkipTrailing(b: array<char>, end: nat, base: nat, ghost s: string) returns (p: nat)
    requires base + |s| == end <= b.Length
    requires forall i | 0 <= i < |s| :: s[i] == b[base + i]
    ensures p == base + Trimmed(s)
  {
    p := end;
    while p > base && '\0' < b[p - 1] <= ' '
      invariant base <= p <= end
      invariant forall i | p - base <= i < |s| :: Blank(s[i])
      invariant p > base ==> b[p - 1] == s[p - 1 - base]
    {
      p := p - 1;
    }
  }

  method StripTrailingAt(b: array<char>, at: nat, ghost s: string)
    requires Holds(b, at, s)
    modifies b
    ensures Holds(b, at, StripTrailing(s))
    ensures forall i | 0 <= i < b.Length && i != at + |StripTrailing(s)| :: b[i] == old(b[i])
  {
    var n := StrLen(b, at, s);
    var p := SkipTrailing(b, at + n, at, s);
    b[p] := '\0';
  }

  // A copy within one array that reads everything before it writes over it, among
  // those that the assertion in front of the copy admits
  predicate Clear(to: nat, from: nat, s: string, maxlen: nat, option: Quotes) {
    match option
    case Plain => true
    case Enquote => maxlen < 3 || to >= from + maxlen || StaysBehind(to, from, s, maxlen)
    case Dequote => to <= from || to > from + |s|
  }

  /** The assertion of the source is all that is asked of a copy within one array. When the
      copy overtakes its own source it goes on over what it wrote, past the end of the source
      if need be; the memory it runs through has to be there. */
  method SaveStrncpy(dest: array<char>, to: nat, source: array<char>, from: nat, maxlen: nat, option: Quotes, ghost s: string)
    requires maxlen > 0 && to + maxlen <= dest.Length
    requires Holds(source, from, s)
    requires dest == source ==> to <= from || to >= from + maxlen
    requires dest == source && !Clear(to, from, s, maxlen, option) ==> from + 2 * maxlen <= dest.Length
    modifies dest
    ensures dest != source || Clear(to, from, s, maxlen, option) ==>
      && Holds(dest, to, Saved(s, maxlen, option))
      && forall i | 0 <= i < dest.Length && !(to <= i <= to + |Saved(s, maxlen, option)|) :: dest[i] == old(dest[i])
    ensures dest == source && !Clear(to, from, s, maxlen, option) ==>
      dest[..] == if option.Enquote? then Enquoted(old(dest[..]), to, from, maxlen)
                  else Decoding(old(dest[..]), to, from, maxlen, 0, 0)
    ensures dest == source && option.Enquote? && to <= from && |Escape(s)| + 4 < maxlen ==>
      (Holds(dest, to, Quoted(s)) <==> to + |Escape(s)| < from + |s|)
  {
    if option.Enquote? && maxlen >= 3 {
      assert dest == source ==> old(dest[..]) == dest[..] && HoldsAt(dest[..], from, s);
      CopyEnquoted(dest, to, source, from, maxlen, s, dest != source || Clear(to, from, s, maxlen, option));
      if dest == source { QuotedOverItself(dest, to, from, maxlen, s, old(source[..])); }
    } else if option.Dequote? {
      CopyDequoted(dest, to, source, from, maxlen, s, dest != source || Clear(to, from, s, maxlen, option));
    } else {
      CopyPlain(dest, to, source, from, maxlen, s);
    }
  }

  lemma QuotedOverItself(b: array<char>, to: nat, from: nat, maxlen: nat, s: string, mem: seq<char>)
    requires maxlen >= 3 && to + maxlen <= b.Length && HoldsAt(mem, from, s)
    requires StaysBehind(to, from, s, maxlen) ==> Holds(b, to, Saved(s, maxlen, Enquote))
    requires !StaysBehind(to, from, s, maxlen) && to <= from ==>
      from + maxlen <= |mem| == b.Length && b[..] == Enquoted(mem, to, from, maxlen)
    ensures to <= from && |Escape(s)| + 4 < maxlen ==>
      (Holds(b, to, Quoted(s)) <==> to + |Escape(s)| < from + |s|)
  {
    if to <= from && |Escape(s)| + 4 < maxlen {
      FittingIsLongest(s, maxlen - 3, s);
      assert Fitting(s, maxlen - 3) == s;
      if to + |Escape(s)| >= from + |s| { QuotingSpoilsItself(mem, to, from, maxlen, s); }
      assert Holds(b, to, Quoted(s)) ==> HoldsAt(b[..], to, Quoted(s));
    }
  }

  method CopyPlain(dest: array<char>, to: nat, source: array<char>, from: nat, maxlen: nat, ghost s: string)
    requires maxlen > 0 && to + maxlen <= dest.Length
    requires Holds(source, from, s)
    requires dest == source ==> to <= from || to >= from + maxlen
    modifies dest
    ensures Holds(dest, to, Take(s, maxlen - 1))
    ensures forall i | 0 <= i < dest.Length && !(to <= i <= to + |Take(s, maxlen - 1)|) :: dest[i] == old(dest[i])
  {
    var d := 0;
    while d < maxlen - 1 && source[from + d] != '\0'
      invariant d <= |s| && d < maxlen
      invariant forall i | 0 <= i < d :: s[i] == dest[to + i]
      invariant forall i | d <= i < |s| && i < maxlen :: s[i] == source[from + i]
      invariant |s| < maxlen ==> source[from + |s|] == '\0'
      invariant forall i | 0 <= i < dest.Length && !(to <= i < to + d) :: dest[i] == old(dest[i])
    {
      assert d < |s|;
      assert s[d] == source[from + d];
      dest[to + d] := source[from + d];
      d := d + 1;
    }
    if d < |s| { assert s[d] != '\0'; }
    dest[to + d] := '\0';
  }

  method CopyDequoted(dest: array<char>, to: nat, source: array<char>, from: nat, maxlen: nat, ghost s: string, ghost clear: bool)
    requires maxlen > 0 && to + maxlen <= dest.Length
    requires Holds(source, from, s)
    requires if clear then dest == source ==> to > from + |s| || to <= from
             else dest == source && from + 2 * maxlen <= dest.Length
    modifies dest
    ensures clear ==>
      && Holds(dest, to, Take(Unescape(s), maxlen - 1))
      && forall i | 0 <= i < dest.Length && !(to <= i <= to + |Take(Unescape(s), maxlen - 1)|) :: dest[i] == old(dest[i])
    ensures !clear ==> dest[..] == Decoding(old(dest[..]), to, from, maxlen, 0, 0)
  {
    var d := DecodeInto(dest, to, source, from, maxlen, s, Unescape(s), clear);
    ghost var before := dest[..];
    dest[to + d] := '\0';
    assert dest[..] == before[to + d := '\0'];
  }

  method DecodeInto(dest: array<char>, to: nat, source: array<char>, from: nat, maxlen: nat, ghost s: string, ghost u: string, ghost clear: bool)
    returns (d: nat)
    requires maxlen > 0 && to + maxlen <= dest.Length
    requires Holds(source, from, s) && u == Unescape(s)
    requires if clear then dest == source ==> to > from + |s| || to <= from
             else dest == source && from + 2 * maxlen <= dest.Length
    modifies dest
    ensures d < maxlen
    ensures clear ==>
      && d == |Take(u, maxlen - 1)|
      && (forall i | to <= i < to + d :: dest[i] == u[i - to])
      && forall i | 0 <= i < dest.Length && !(to <= i < to + d) :: dest[i] == old(dest[i])
    ensures !clear ==> dest[..][to + d := '\0'] == Decoding(old(dest[..]), to, from, maxlen, 0, 0)
  {
    hide Unescape, Decoding;
    d := 0;
    var r := 0;
    ghost var rest := s;
    while source[from + r] != '\0' && d < maxlen - 1
      invariant d < maxlen && from + r < source.Length
      invariant clear ==>
        && d <= r && r + |rest| == |s| && d <= |u|
        && u[d..] == Unescape(rest)
        && (forall i | to <= i < to + d :: dest[i] == u[i - to])
        && Holds(source, from + r, rest)
        && forall i | 0 <= i < dest.Length && !(to <= i < to + d) :: dest[i] == old(dest[i])
      invariant !clear ==>
        && r <= 2 * d
        && Decoding(old(dest[..]), to, from, maxlen, 0, 0) == Decoding(dest[..], to, from, maxlen, d, r)
      decreases maxlen - d
    {
      if clear { FirstOf(source, from + r, rest); UnescapeStep(rest, u, d); }
      ghost var before := dest[..];
      var n := CopyDecoded(dest, to + d, source, from + r, rest, clear);
      if clear {
        rest := rest[n..];
      } else {
        DecodingOne(before, to, from, maxlen, d, r, n);
      }
      r, d := r + n, d + 1;
    }
    if clear {
      assert rest != [] ==> rest[0] == source[from + r];
      if rest == [] { NothingLeft(u, d); }
    } else {
      DecodingEnd(dest[..], to, from, maxlen, d, r);
    }
  }

  lemma FirstOf(b: array<char>, at: nat, rest: string)
    requires Holds(b, at, rest) && b[at] != '\0'
    ensures rest != [] && rest[0] == b[at]
    ensures if |rest| > 1 then rest[1] == b[at + 1] else b[at + 1] == '\0'
  {
    assert rest != [] ==> rest[0] == b[at];
  }

  lemma NothingLeft(u: string, d: nat)
    requires d <= |u| && u[d..] == Unescape([])
    ensures d == |u|
  {}

  // One decoded character, and how many it was read from
  method CopyDecoded(dest: array<char>, at: nat, source: array<char>, from: nat, ghost rest: string, ghost clear: bool) returns (n: nat)
    requires from + 1 < source.Length && at < dest.Length && source[from] != '\0'
    requires clear ==> Holds(source, from, rest) && (dest == source ==> at <= from || at > from + |rest|)
    modifies dest
    ensures n == if (old(source[from]) == '"' || old(source[from]) == '\\') && old(source[from + 1]) == '"' then 2 else 1
    ensures dest[..] == old(dest[..])[at := old(source[from + n - 1])]
    ensures clear ==>
      && rest != [] && n == (if StartsPair(rest) then 2 else 1)
      && dest[at] == rest[n - 1] && Holds(source, from + n, rest[n..])
    ensures forall i | 0 <= i < dest.Length && i != at :: dest[i] == old(dest[i])
  {
    if clear { FirstOf(source, from, rest); }
    n := 1;
    if (source[from] == '"' || source[from] == '\\') && source[from + 1] == '"' {
      n := 2;
    }
    dest[at] := source[from + n - 1];
  }

  // What is left to decode is u[d..].
  lemma UnescapeStep(rest: string, u: string, d: nat)
    requires rest != [] && d <= |u| && u[d..] == Unescape(rest)
    ensures var n := if StartsPair(rest) then 2 else 1;
            d < |u| && u[d] == rest[n - 1] && u[d + 1..] == Unescape(rest[n..])
  {
    assert u[d] == u[d..][0] && u[d + 1..] == u[d..][1..];
  }

  method CopyEnquoted(dest: array<char>, to: nat, source: array<char>, from: nat, maxlen: nat, ghost s: string, ghost clear: bool)
    requires maxlen >= 3 && to + maxlen <= dest.Length
    requires Holds(source, from, s)
    requires if clear then dest == source ==> to >= from + maxlen || StaysBehind(to, from, s, maxlen)
             else dest == source && from + maxlen <= dest.Length
    modifies dest
    ensures clear ==>
      && Holds(dest, to, Quoted(Fitting(s, maxlen - 3)))
      && forall i | 0 <= i < dest.Length && !(to <= i <= to + |Quoted(Fitting(s, maxlen - 3))|) :: dest[i] == old(dest[i])
    ensures !clear ==> dest[..] == Enquoted(old(dest[..]), to, from, maxlen)
  {
    hide Escape, Fitting, StaysBehind, Enquoting;
    if clear && dest == source && to < from + maxlen {
      NothingEscaped(s);
      BehindSoFar(to, from, s, maxlen, 0);
    }
    dest[to] := '"';
    ghost var begun := dest[..];
    assert begun == old(dest[..])[to := '"'];
    ghost var read;
    var d;
    d, read := CopyEscaped(dest, to, source, from, maxlen,
                           Job(clear, dest == source, source[..], dest[..], to, from, maxlen, s));
    ghost var before := dest[..];
    dest[to + d] := '"';
    dest[to + d + 1] := '\0';
    assert dest[..] == before[to + d := '"'][to + d + 1 := '\0'];
    if clear {
      FittingIsLongest(s, maxlen - 3, []);
      HoldsBetweenQuotes(dest, to, Escape(Fitting(s, maxlen - 3)));
    }
  }

  // The part between the quotes
  method CopyEscaped(dest: array<char>, to: nat, source: array<char>, from: nat, maxlen: nat, ghost j: Job) returns (d: nat, ghost read: nat)
    requires Legible(j) && j.same == (dest == source) && j.was == dest[..] && j.source == source[..]
    requires j.to == to && j.from == from && j.maxlen == maxlen
    modifies dest
    ensures Copied(j, dest[..], d, read)
  {
    d := 1;
    var r := 0;
    Begins(j);
    assert maxlen >= 3 && to + maxlen <= dest.Length && 0 < maxlen - 2 && from < source.Length;
    hide Legible, Halfway, Copied;
    while source[from + r] != '\0' && d < maxlen - 2
      invariant r < d <= maxlen - 2 && from + r < source.Length
      invariant Halfway(j, dest[..], source[..], d, r)
      invariant !j.same ==> source[..] == j.source
      decreases maxlen - d
    {
      if source[from + r] == '"' && d >= maxlen - 3 { break; }
      ghost var mem, left := dest[..], source[..];
      var n := PutEscaped(dest, to + d, source, from + r);
      GoesOn(j, mem, left, dest[..], source[..], d, r);
      r, d := r + 1, d + n;
    }
    read := r;
    Ends(j, dest[..], source[..], d, r);
  }

  // The character at `from`, behind a backslash if it is a quote; it is read again for the copy.
  method PutEscaped(dest: array<char>, at: nat, source: array<char>, from: nat) returns (n: nat)
    requires from < source.Length && at + (if source[from] == '"' then 2 else 1) <= dest.Length
    modifies dest
    ensures n == if old(source[from]) == '"' then 2 else 1
    ensures n == 1 ==> dest[..] == old(dest[..])[at := old(source[from])]
    ensures n == 2 ==>
      var c := if dest == source && at == from then '\\' else '"';
      dest[..] == old(dest[..])[at := '\\'][at + 1 := c]
  {
    n := 0;
    if source[from] == '"' {
      dest[at] := '\\';
      n := 1;
    }
    dest[at + n] := source[from];
    n := n + 1;
  }

  lemma HoldsBetweenQuotes(b: array<char>, at: nat, q: string)
    requires CString(q) && at + |q| + 2 < b.Length
    requires b[at] == '"' && b[at + |q| + 1] == '"' && b[at + |q| + 2] == '\0'
    requires forall i | at < i < at + 1 + |q| :: b[i] == q[i - at - 1]
    ensures Holds(b, at, ['"'] + q + ['"'])
  {
    var s := ['"'] + q + ['"'];
    assert forall i | 1 <= i < |s| - 1 :: s[i] == q[i - 1];
  }

  // The comment, the trailing blanks and the outer quotes are cut off in place.
  method CleanString(b: array<char>, at: nat, ghost s: string) returns (p: nat, quotes: Quotes)
    requires Holds(b, at, s)
    modifies b
    ensures at <= p && p + |Clean(s).text| <= at + |s|
    ensures Holds(b, p, Clean(s).text) && quotes == Clean(s).quotes
    ensures forall i | 0 <= i < b.Length && !(at <= i <= at + |s|) :: b[i] == old(b[i])
  {
    hide CommentAt, Unquoted, Trimmed;
    var ep := CommentEnd(b, at, s);
    b[ep] := '\0';
    ghost var kept := s[..ep - at];
    assert Holds(b, at, kept);
    StripTrailingAt(b, at, kept);
    p, quotes := StripQuotes(b, at, StripTrailing(kept));
  }

  method StripQuotes(b: array<char>, at: nat, ghost t: string) returns (p: nat, quotes: Quotes)
    requires Holds(b, at, t)
    modifies b
    ensures at <= p && p + |Unquoted(t).text| <= at + |t|
    ensures Holds(b, p, Unquoted(t).text) && quotes == Unquoted(t).quotes
    ensures forall i | 0 <= i < b.Length && !(at <= i <= at + |t|) :: b[i] == old(b[i])
  {
    var n := StrLen(b, at, t);
    p, quotes := at, Plain;
    if n > 0 {
      assert t[0] == b[at] && t[n - 1] == b[at + n - 1];
      if b[at] == '"' && b[at + n - 1] == '"' {
        p := at + 1;
        b[at + n - 1] := '\0';
        quotes := Dequote;
      }
    }
  }

  method CommentEnd(b: array<char>, at: nat, ghost s: string) returns (ep: nat)
    requires Holds(b, at, s)
    ensures ep == at + CommentAt(s, false)
  {
    ep := at;
    var inside := false;
    ghost var rest := s;
    while b[ep] != '\0' && ((b[ep] != ';' && b[ep] != '#') || inside)
      invariant Holds(b, ep, rest)
      invariant CommentAt(s, false) == ep - at + CommentAt(rest, inside)
      decreases |rest|
    {
      assert rest[0] == b[ep];
      assert |rest| > 1 ==> rest[1] == b[ep + 1];
      ghost var pair := (rest[0] == '"' || rest[0] == '\\') && |rest| > 1 && rest[1] == '"';
      if b[ep] == '"' {
        if b[ep + 1] == '"' { ep := ep + 1; } else { inside := !inside; }
      } else if b[ep] == '\\' && b[ep + 1] == '"' {
        ep := ep + 1;
      }
      ep := ep + 1;
      rest := if pair then rest[2..] else rest[1..];
    }
    assert rest != [] ==> rest[0] == b[ep];
  }

  // fgets: at most size - 1 characters, up to and including a newline
  method Fgets(b: array<char>, at: nat, size: nat, text: string, pos: nat) returns (got: bool, next: nat)
    requires size >= 2 && at + size <= b.Length && pos <= |text|
    modifies b
    ensures got == (pos < |text|)
    ensures got ==> next == pos + Taken(text[pos..], size - 1) && Holds(b, at, CutAtNul(text[pos..next]))
    ensures !got ==> next == pos
    ensures forall i | 0 <= i < b.Length && !(at <= i < at + size) :: b[i] == old(b[i])
  {
    next := pos;
    got := pos < |text|;
    if !got { return; }
    while next < |text| && next - pos < size - 1 && (next == pos || text[next - 1] != '\n')
      invariant pos <= next <= |text| && next - pos <= size - 1
      invariant forall i | pos <= i < next - 1 :: text[i] != '\n'
      invariant forall i | pos <= i < next :: b[at + i - pos] == text[i]
      invariant forall i | 0 <= i < b.Length && !(at <= i < at + size) :: b[i] == old(b[i])
    {
      b[at + next - pos] := text[next];
      next := next + 1;
    }
    b[at + next - pos] := '\0';
    assert text[pos..][..next - pos] == text[pos..next];
  }

}
