/** The text form of a terminal derivation: `&keychain/index`. */
module Terminals {
  import opened Base
  import opened OutputState

  const MAX_U8 := 0xFF
  const MAX_U32 := 0xFFFF_FFFF

  datatype TerminalParseError = NoKeychain | InvalidTerminal | InvalidComponents(text: string)

  predicate IsDigit(c: char) {
    '0' <= c <= '9'
  }

  function DigitValue(c: char): nat
    requires IsDigit(c)
  {
    (c as int) - ('0' as int)
  }

  function Digit(d: nat): (c: char)
    requires d < 10
    ensures IsDigit(c) && DigitValue(c) == d
  {
    (d + ('0' as int)) as char
  }

  predicate AllDigits(s: string) {
    forall i :: 0 <= i < |s| ==> IsDigit(s[i])
  }

  /* The number a digit string stands for, after `acc`. */
  function Value(acc: nat, s: string): nat
    requires AllDigits(s)
    decreases |s|
  {
    if s == "" then acc else Value(10 * acc + DigitValue(s[0]), s[1..])
  }

  function Decimal(n: nat): string {
    if n < 10 then [Digit(n)] else Decimal(n / 10) + [Digit(n % 10)]
  }

  function Print(t: Terminal): string {
    "&" + Decimal(t.keychain) + "/" + Decimal(t.index)
  }

  /* Digit by digit with an overflow check, as the standard library parses unsigned integers. */
  function ParseDigits(acc: nat, s: string, max: nat): (r: Option<nat>)
    requires acc <= max
    ensures r.Some? ==> r.value <= max
    decreases |s|
  {
    if s == "" then Some(acc)
    else if !IsDigit(s[0]) || 10 * acc + DigitValue(s[0]) > max then None
    else ParseDigits(10 * acc + DigitValue(s[0]), s[1..], max)
  }

  function ParseUnsigned(s: string, max: nat): (r: Option<nat>)
    ensures r.Some? ==> r.value <= max
  {
    if s == "" then None
    else if s[0] == '+' then if |s| == 1 then None else ParseDigits(0, s[1..], max)
    else ParseDigits(0, s, max)
  }

  function Split(s: string): (pieces: seq<string>)
    ensures pieces != []
    decreases |s|
  {
    if s == "" then [""]
    else
      var rest := Split(s[1..]);
      if s[0] == '/' then [""] + rest else [[s[0]] + rest[0]] + rest[1..]
  }

  function TrimAmpersands(s: string): string {
    if s != "" && s[0] == '&' then TrimAmpersands(s[1..]) else s
  }

  function Parse(s: string): Result<Terminal, TerminalParseError> {
    var pieces := Split(s);
    if |pieces| != 2 then Err(InvalidComponents(s))
    else if pieces[0] == "" || pieces[0][0] != '&' then Err(NoKeychain)
    else
      var keychain := ParseUnsigned(TrimAmpersands(pieces[0]), MAX_U8);
      if keychain.None? then Err(InvalidTerminal)
      else
        var index := ParseUnsigned(pieces[1], MAX_U32);
        if index.None? then Err(InvalidTerminal) else Ok(Terminal(keychain.value, index.value))
  }

  lemma {:induction false} ValueGrows(acc: nat, s: string)
    requires AllDigits(s)
    ensures Value(acc, s) >= acc
    decreases |s|
  {
    if s != "" { ValueGrows(10 * acc + DigitValue(s[0]), s[1..]); }
  }

  /* Digits are accepted exactly when they are digits and their value does not overflow. */
  lemma {:induction false} ParseDigitsIff(acc: nat, s: string, max: nat)
    requires acc <= max
    ensures ParseDigits(acc, s, max).Some? <==> AllDigits(s) && Value(acc, s) <= max
    ensures ParseDigits(acc, s, max).Some? ==> ParseDigits(acc, s, max).value == Value(acc, s)
    decreases |s|
  {
    if s != "" && IsDigit(s[0]) {
      var next := 10 * acc + DigitValue(s[0]);
      assert AllDigits(s) <==> AllDigits(s[1..]) by {
        assert s == [s[0]] + s[1..];
      }
      if next <= max {
        ParseDigitsIff(next, s[1..], max);
      } else if AllDigits(s) {
        ValueGrows(next, s[1..]);
      }
    }
  }

  /** A numeral: digits, at least one, optionally after a plus sign. */
  ghost predicate IsNumeral(s: string, v: nat) {
    var digits := if s != "" && s[0] == '+' then s[1..] else s;
    digits != "" && AllDigits(digits) && Value(0, digits) == v
  }

  /** Numbers that overflow are rejected, and so is everything that is not a numeral. */
  lemma ParseUnsignedIff(s: string, max: nat, v: nat)
    ensures ParseUnsigned(s, max) == Some(v) <==> IsNumeral(s, v) && v <= max
  {
    if s != "" {
      ParseDigitsIff(0, if s[0] == '+' then s[1..] else s, max);
    }
  }

  lemma {:induction false} ValueSnoc(acc: nat, s: string, c: char)
    requires AllDigits(s) && IsDigit(c)
    ensures AllDigits(s + [c])
    ensures Value(acc, s + [c]) == 10 * Value(acc, s) + DigitValue(c)
    decreases |s|
  {
    if s == "" {
      assert s + [c] == [c];
      assert Value(10 * acc + DigitValue(c), [c][1..]) == 10 * acc + DigitValue(c);
    } else {
      ValueSnoc(10 * acc + DigitValue(s[0]), s[1..], c);
      assert (s + [c])[1..] == s[1..] + [c];
    }
  }

  lemma {:induction false} DecimalIsNumeral(n: nat)
    ensures Decimal(n) != "" && AllDigits(Decimal(n)) && Value(0, Decimal(n)) == n
  {
    if n >= 10 {
      DecimalIsNumeral(n / 10);
      ValueSnoc(0, Decimal(n / 10), Digit(n % 10));
    } else {
      assert Value(DigitValue(Digit(n)), Decimal(n)[1..]) == n;
    }
  }

  predicate NoSlash(s: string) {
    forall i :: 0 <= i < |s| ==> s[i] != '/'
  }

  lemma {:induction false} SplitNoSlash(s: string)
    requires NoSlash(s)
    ensures Split(s) == [s]
  {
    if s != "" {
      SplitNoSlash(s[1..]);
      assert s == [s[0]] + s[1..];
    }
  }

  lemma {:induction false} SplitOneSlash(a: string, b: string)
    requires NoSlash(a) && NoSlash(b)
    ensures Split(a + "/" + b) == [a, b]
    decreases |a|
  {
    var s := a + "/" + b;
    if a == "" {
      assert s[1..] == b;
      SplitNoSlash(b);
    } else {
      assert s[1..] == a[1..] + "/" + b && s[0] == a[0];
      SplitOneSlash(a[1..], b);
      assert a == [a[0]] + a[1..];
    }
  }

  /* Exactly two pieces means exactly one slash. */
  lemma {:induction false} SplitInTwo(s: string)
    ensures forall p :: p in Split(s) ==> NoSlash(p)
    ensures |Split(s)| == 1 ==> s == Split(s)[0]
    ensures |Split(s)| == 2 ==> s == Split(s)[0] + "/" + Split(s)[1]
    decreases |s|
  {
    if s != "" {
      SplitInTwo(s[1..]);
      var rest, pieces := Split(s[1..]), Split(s);
      assert s == [s[0]] + s[1..] && rest[0] in rest;
      if s[0] == '/' {
        assert pieces == [""] + rest;
      } else {
        assert pieces == [[s[0]] + rest[0]] + rest[1..] && NoSlash([s[0]] + rest[0]);
      }
      hide Split;
    }
  }

  lemma {:induction false} TrimLeadsWithout(s: string)
    ensures TrimAmpersands(s) == "" || TrimAmpersands(s)[0] != '&'
    ensures exists n: nat :: n <= |s| && TrimAmpersands(s) == s[n..] && forall i :: 0 <= i < n ==> s[i] == '&'
  {
    if s != "" && s[0] == '&' {
      TrimLeadsWithout(s[1..]);
      var n: nat :| n <= |s[1..]| && TrimAmpersands(s[1..]) == s[1..][n..]
        && forall i :: 0 <= i < n ==> s[1..][i] == '&';
      assert s[1..][n..] == s[n + 1..];
      assert forall i :: 1 <= i < n + 1 ==> s[i] == s[1..][i - 1];
    } else {
      assert s[0..] == s;
    }
  }

  lemma {:induction false} TrimExactly(n: nat, rest: string)
    requires rest == "" || rest[0] != '&'
    ensures TrimAmpersands(seq(n, i => '&') + rest) == rest
  {
    var s := seq(n, i => '&') + rest;
    if n == 0 {
      assert s == rest;
    } else {
      assert s[1..] == seq(n - 1, i => '&') + rest;
      TrimExactly(n - 1, rest);
    }
  }

  /* Digits only, without a leading zero. */
  ghost predicate IsPlain(s: string) {
    s != "" && (forall i :: 0 <= i < |s| ==> '0' <= s[i] <= '9') && (s[0] == '0' ==> |s| == 1)
  }

  lemma {:induction false} DecimalIsPlain(n: nat)
    ensures IsPlain(Decimal(n)) && (Decimal(n)[0] == '0' ==> n == 0)
  {
    if n >= 10 { DecimalIsPlain(n / 10); }
  }

  /** A terminal is printed as an ampersand, a plain numeral, a slash and a plain numeral. */
  lemma PrintIsPlain(t: Terminal)
    ensures exists k, i :: Print(t) == "&" + k + "/" + i && IsPlain(k) && IsPlain(i)
  {
    DecimalIsPlain(t.keychain);
    DecimalIsPlain(t.index);
    assert Print(t) == "&" + Decimal(t.keychain) + "/" + Decimal(t.index);
  }

  lemma PrintExample()
    ensures Print(Terminal(10, 305)) == "&10/305"
  {
    assert Decimal(10) == Decimal(1) + [Digit(0)];
    assert Decimal(305) == Decimal(30) + [Digit(5)] && Decimal(30) == Decimal(3) + [Digit(0)];
  }

  /** Every terminal survives printing and parsing. */
  lemma RoundTrip(t: Terminal)
    requires t.index <= MAX_U32
    ensures Parse(Print(t)) == Ok(t)
  {
    var k, i := Decimal(t.keychain), Decimal(t.index);
    DecimalIsNumeral(t.keychain);
    DecimalIsNumeral(t.index);
    assert IsDigit(k[0]) && IsDigit(i[0]);
    SplitOneSlash("&" + k, i);
    assert Print(t) == "&" + k + "/" + i;
    assert ("&" + k)[1..] == k;
    assert TrimAmpersands("&" + k) == k;
    ParseUnsignedIff(k, MAX_U8, t.keychain);
    ParseUnsignedIff(i, MAX_U32, t.index);
  }

  /** The texts of a terminal: one or more ampersands, a numeral, a slash, a numeral, both in range. */
  ghost predicate IsTextOf(s: string, t: Terminal) {
    t.index <= MAX_U32 && exists n: nat, keychain: string, index: string :: n > 0 && Reads(s, n, keychain, index, t)
  }

  ghost predicate Reads(s: string, n: nat, keychain: string, index: string, t: Terminal) {
    s == seq(n, i => '&') + keychain + "/" + index && IsNumeral(keychain, t.keychain) && IsNumeral(index, t.index)
  }

  lemma NumeralHasNoSlash(s: string, v: nat)
    requires IsNumeral(s, v)
    ensures NoSlash(s) && s != "" && s[0] != '&'
  {
  }

  lemma ParsedIsText(s: string, t: Terminal)
    requires Parse(s) == Ok(t)
    ensures IsTextOf(s, t)
  {
    hide Split, TrimAmpersands, ParseUnsigned;
    var pieces := Split(s);
    SplitInTwo(s);
    TrimLeadsWithout(pieces[0]);
    var n: nat :| n <= |pieces[0]| && TrimAmpersands(pieces[0]) == pieces[0][n..]
      && forall i :: 0 <= i < n ==> pieces[0][i] == '&';
    var keychain := pieces[0][n..];
    assert pieces[0] == seq(n, i => '&') + keychain;
    ParseUnsignedIff(keychain, MAX_U8, t.keychain);
    ParseUnsignedIff(pieces[1], MAX_U32, t.index);
    assert n > 0;
    assert Reads(s, n, keychain, pieces[1], t);
  }

  lemma TextIsParsed(s: string, t: Terminal)
    requires IsTextOf(s, t)
    ensures Parse(s) == Ok(t)
  {
    hide Split, TrimAmpersands, ParseUnsigned;
    var n: nat, keychain: string, index: string :| n > 0 && Reads(s, n, keychain, index, t);
    NumeralHasNoSlash(keychain, t.keychain);
    NumeralHasNoSlash(index, t.index);
    var first := seq(n, i => '&') + keychain;
    SplitOneSlash(first, index);
    TrimExactly(n, keychain);
    ParseUnsignedIff(keychain, MAX_U8, t.keychain);
    ParseUnsignedIff(index, MAX_U32, t.index);
  }

  /** Parsing accepts exactly the texts of terminals; components that overflow are rejected. */
  lemma ParseIff(s: string, t: Terminal)
    ensures Parse(s) == Ok(t) <==> IsTextOf(s, t)
  {
    hide *;
    if Parse(s) == Ok(t) { ParsedIsText(s, t); }
    if IsTextOf(s, t) { TextIsParsed(s, t); }
  }
}
