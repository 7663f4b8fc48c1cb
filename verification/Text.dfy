/** The C string routines that the interface names go through: printf("%ld"),
    atoi and strtok. Versions are uint64_t, modelled as naturals below 2^64. */
module Text {
  import opened Wrappers

  const TWO31: int := 0x8000_0000
  const TWO32: int := 0x1_0000_0000
  const TWO63: int := 0x8000_0000_0000_0000
  const TWO64: int := 0x1_0000_0000_0000_0000

  // uint64_t
  type U64 = n: int | 0 <= n < 0x1_0000_0000_0000_0000

  predicate IsDigit(c: char) { '0' <= c <= '9' }

  function DigitChar(d: nat): (c: char)
    requires d < 10
    ensures IsDigit(c) && DigitValue(c) == d
  {
    '0' + d as char
  }

  function DigitValue(c: char): nat
    requires IsDigit(c)
  {
    (c - '0') as nat
  }

  // printf of a non-negative number
  function Digits(n: nat): string {
    if n < 10 then [DigitChar(n)] else Digits(n / 10) + [DigitChar(n % 10)]
  }

  // printf("%ld") handed a uint64_t: the bits are read as a signed long
  function PrintLong(v: U64): string {
    if v < TWO63 then Digits(v) else "-" + Digits(TWO64 - v)
  }

  // The digit loop of strtol
  function ReadNat(s: string, acc: nat): nat {
    if s == [] || !IsDigit(s[0]) then acc else ReadNat(s[1..], acc * 10 + DigitValue(s[0]))
  }

  predicate IsSpace(c: char) { c == ' ' || '\t' <= c <= '\r' }

  // strtol saturates at the bounds of a long
  function Saturate(x: int): int {
    if x >= TWO63 then TWO63 - 1 else if x < -TWO63 then -TWO63 else x
  }

  function ReadLong(s: string): int {
    if s == [] then 0
    else if IsSpace(s[0]) then ReadLong(s[1..])
    else if s[0] == '-' then Saturate(0 - ReadNat(s[1..], 0))
    else if s[0] == '+' then Saturate(ReadNat(s[1..], 0))
    else Saturate(ReadNat(s, 0))
  }

  // A wider integer stored in an int keeps its low 32 bits
  function ToInt(x: int): int { (x + TWO31) % TWO32 - TWO31 }

  // An int passed where a uint64_t is expected
  function ToU64(x: int): U64 { x % TWO64 }

  // (int)strtol(s), which is what the C library's atoi computes
  function Atoi(s: string): int { ToInt(ReadLong(s)) }

  // All the tokens strtok(s, sep) yields, in order
  function Tokens(s: string, sep: char): (ts: seq<string>)
    ensures forall t <- ts :: t != [] && sep !in t
    decreases |s|
  {
    if s == [] then []
    else if s[0] == sep then Tokens(s[1..], sep)
    else
      var k := IndexOf(s, sep);
      [s[..k]] + Tokens(s[k..], sep)
  }

  lemma {:induction false} ReadNatAppend(ds: string, d: char, acc: nat)
    requires forall c <- ds :: IsDigit(c)
    requires IsDigit(d)
    ensures ReadNat(ds + [d], acc) == ReadNat(ds, acc) * 10 + DigitValue(d)
  {
    if ds != [] {
      assert (ds + [d])[1..] == ds[1..] + [d];
      ReadNatAppend(ds[1..], d, acc * 10 + DigitValue(ds[0]));
    }
  }

  lemma {:induction false} DigitsAreDigits(n: nat)
    ensures Digits(n) != []
    ensures forall c <- Digits(n) :: IsDigit(c)
  {
    if n >= 10 { DigitsAreDigits(n / 10); }
  }

  // Decimal printing and reading are inverse.
  lemma {:induction false} ReadDigits(n: nat)
    ensures ReadNat(Digits(n), 0) == n
  {
    if n >= 10 {
      ReadDigits(n / 10);
      DigitsAreDigits(n / 10);
      ReadNatAppend(Digits(n / 10), DigitChar(n % 10), 0);
    }
  }

  lemma ReadPrinted(v: U64)
    ensures ReadLong(PrintLong(v)) == if v < TWO63 then v else v - TWO64
  {
    var n := if v < TWO63 then v else TWO64 - v;
    DigitsAreDigits(n);
    ReadDigits(n);
    if v >= TWO63 { assert PrintLong(v)[1..] == Digits(n); }
  }

  lemma LowBitsSurvive(x: int, v: U64)
    requires x == if v < TWO63 then v else v - TWO64
    ensures ToU64(ToInt(x)) == v <==> v < TWO31 || v >= TWO64 - TWO31
  {
    var q := (x + TWO31) / TWO32;
    var low := ToInt(x);
    assert low == x - q * TWO32;
    assert -TWO31 <= low < TWO31;
    assert ToU64(low) == if low < 0 then low + TWO64 else low;
  }

  // A version survives "%ld" followed by atoi exactly when it is below 2^31 or
  // within 2^31 of 2^64: atoi keeps 32 bits and the conversion back sign-extends.
  lemma VersionSurvives(v: U64)
    ensures ToU64(Atoi(PrintLong(v))) == v <==> v < TWO31 || v >= TWO64 - TWO31
  {
    ReadPrinted(v);
    LowBitsSurvive(ReadLong(PrintLong(v)), v);
  }

  lemma PrintedHasNoColon(v: U64)
    ensures PrintLong(v) != [] && ':' !in PrintLong(v)
  {
    DigitsAreDigits(if v < TWO63 then v else TWO64 - v);
  }

  lemma IndexOfAppend(t: string, c: char, rest: string)
    requires c !in t
    requires rest == [] || rest[0] == c
    ensures IndexOf(t + rest, c) == |t|
  {
    var k := IndexOf(t + rest, c);
    forall i | 0 <= i < |t| ensures (t + rest)[i] != c {
      assert t[i] in t;
    }
    assert rest != [] ==> (t + rest)[|t|] == c;
  }

  lemma FirstToken(t: string, c: char, rest: string)
    requires t != [] && c !in t
    requires rest == [] || rest[0] == c
    ensures Tokens(t + rest, c) == [t] + Tokens(rest, c)
  {
    IndexOfAppend(t, c, rest);
    assert (t + rest)[..|t|] == t && (t + rest)[|t|..] == rest;
  }
}
