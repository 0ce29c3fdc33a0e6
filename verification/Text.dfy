/** Text handling shared by the configuration, adapter and token models. */
module Text {

  datatype Option<+T> = None | Some(value: T)

  // ---------------------------------------------------------------------
  // Trimming and case
  // ---------------------------------------------------------------------

  predicate IsSpace(c: char) {
    || 9 as char <= c <= 13 as char
    || 28 as char <= c <= 32 as char
    || c == 0x85 as char
    || c == 0xA0 as char
  }

  predicate IsBracket(c: char) {
    c == '[' || c == ']'
  }

  function TrimLeft(s: string, drop: char -> bool): string {
    if s != "" && drop(s[0]) then TrimLeft(s[1..], drop) else s
  }

  function TrimRight(s: string, drop: char -> bool): string {
    if s != "" && drop(s[|s| - 1]) then TrimRight(s[..|s| - 1], drop) else s
  }

  /** `s.strip()` for spaces, `s.strip("[]")` for brackets. */
  function Trim(s: string, drop: char -> bool): string {
    TrimRight(TrimLeft(s, drop), drop)
  }

  function Strip(s: string): string {
    Trim(s, IsSpace)
  }

  predicate Trimmed(s: string, drop: char -> bool) {
    s != "" ==> !drop(s[0]) && !drop(s[|s| - 1])
  }

  lemma {:induction false} TrimRightKeepsHead(s: string, drop: char -> bool)
    requires s != "" ==> !drop(s[0])
    ensures Trimmed(TrimRight(s, drop), drop)
    ensures TrimRight(s, drop) != "" ==> TrimRight(s, drop)[0] == s[0]
  {
    if s != "" && drop(s[|s| - 1]) {
      TrimRightKeepsHead(s[..|s| - 1], drop);
    }
  }

  lemma {:induction false} TrimLeftClean(s: string, drop: char -> bool)
    ensures var t := TrimLeft(s, drop); t != "" ==> !drop(t[0])
  {
    if s != "" && drop(s[0]) {
      TrimLeftClean(s[1..], drop);
    }
  }

  /** A trimmed text trims to itself, so trimming twice is trimming once. */
  lemma TrimIdempotent(s: string, drop: char -> bool)
    ensures Trimmed(Trim(s, drop), drop)
    ensures Trim(Trim(s, drop), drop) == Trim(s, drop)
  {
    TrimLeftClean(s, drop);
    TrimRightKeepsHead(TrimLeft(s, drop), drop);
  }

  predicate All(s: string, drop: char -> bool) {
    forall c <- s :: drop(c)
  }

  lemma {:induction false} TrimLeftSplits(s: string, drop: char -> bool)
    ensures exists left :: All(left, drop) && s == left + TrimLeft(s, drop)
  {
    if s != "" && drop(s[0]) {
      TrimLeftSplits(s[1..], drop);
      var left :| All(left, drop) && s[1..] == left + TrimLeft(s[1..], drop);
      assert All([s[0]] + left, drop) && s == [s[0]] + left + TrimLeft(s, drop);
    } else {
      assert All("", drop) && s == "" + TrimLeft(s, drop);
    }
  }

  lemma {:induction false} TrimRightSplits(s: string, drop: char -> bool)
    ensures exists right :: All(right, drop) && s == TrimRight(s, drop) + right
  {
    if s != "" && drop(s[|s| - 1]) {
      var front := s[..|s| - 1];
      TrimRightSplits(front, drop);
      var right :| All(right, drop) && front == TrimRight(front, drop) + right;
      assert All(right + [s[|s| - 1]], drop) && s == TrimRight(s, drop) + (right + [s[|s| - 1]]);
    } else {
      assert All("", drop) && s == TrimRight(s, drop) + "";
    }
  }

  /** Trimming takes off exactly the dropped characters at either end. */
  lemma TrimSplits(s: string, drop: char -> bool)
    ensures Trimmed(Trim(s, drop), drop)
    ensures exists left, right :: All(left, drop) && All(right, drop) && s == left + Trim(s, drop) + right
  {
    TrimIdempotent(s, drop);
    TrimLeftSplits(s, drop);
    var t := TrimLeft(s, drop);
    TrimRightSplits(t, drop);
    var left :| All(left, drop) && s == left + t;
    var right :| All(right, drop) && t == TrimRight(t, drop) + right;
    assert s == left + Trim(s, drop) + right;
  }

  function LowerChar(c: char): char {
    if 'A' <= c <= 'Z' then ((c as int) + 32) as char else c
  }

  function Lower(s: string): string {
    seq(|s|, i requires 0 <= i < |s| => LowerChar(s[i]))
  }

  // ---------------------------------------------------------------------
  // Decimal integers
  // ---------------------------------------------------------------------

  function Digit(n: nat): char
    requires n < 10
  {
    ('0' as int + n) as char
  }

  predicate IsDigit(c: char) {
    '0' <= c <= '9'
  }

  function PrintNat(n: nat): string {
    if n < 10 then [Digit(n)] else PrintNat(n / 10) + [Digit(n % 10)]
  }

  function PrintInt(n: int): string {
    if n < 0 then "-" + PrintNat(-n) else PrintNat(n)
  }

  function ParseNat(s: string): Option<nat> {
    if s == "" || !IsDigit(s[|s| - 1]) then None
    else
      var d := s[|s| - 1] as int - '0' as int;
      if |s| == 1 then Some(d)
      else
        match ParseNat(s[..|s| - 1])
        case None => None
        case Some(n) => Some(10 * n + d)
  }

  /** `int(text)`: surrounding space, an optional sign, decimal digits. */
  function ParseInt(text: string): Option<int> {
    var s := Strip(text);
    if s == "" then None
    else if s[0] == '-' then
      match ParseNat(s[1..]) {
        case None => None
        case Some(n) => var k: int := n; Some(-k)
      }
    else ParseNat(if s[0] == '+' then s[1..] else s)
  }

  lemma {:induction false} PrintNatParses(n: nat)
    ensures ParseNat(PrintNat(n)) == Some(n)
    ensures PrintNat(n) != "" && forall i :: 0 <= i < |PrintNat(n)| ==> IsDigit(PrintNat(n)[i])
  {
    if n >= 10 {
      PrintNatParses(n / 10);
      var s := PrintNat(n);
      assert s[..|s| - 1] == PrintNat(n / 10);
    }
  }

  lemma PrintIntParses(n: int)
    ensures ParseInt(PrintInt(n)) == Some(n)
    ensures ':' !in PrintInt(n)
  {
    var s := PrintInt(n);
    PrintNatParses(if n < 0 then -n else n);
    assert TrimLeft(s, IsSpace) == s;
    assert TrimRight(s, IsSpace) == s by {
      assert !IsSpace(s[|s| - 1]);
    }
    if n < 0 {
      assert s[1..] == PrintNat(-n);
    }
  }

  /** An optional sign and one decimal digit or more. */
  predicate IsNumeral(s: string) {
    Digits(s) || (s != "" && (s[0] == '-' || s[0] == '+') && Digits(s[1..]))
  }

  predicate Digits(s: string) {
    s != "" && forall i :: 0 <= i < |s| ==> IsDigit(s[i])
  }

  function DigitOf(c: char): nat
    requires IsDigit(c)
  {
    c as int - '0' as int
  }

  function Power(n: nat): nat {
    if n == 0 then 1 else 10 * Power(n - 1)
  }

  /** The digits at their places, from the left. */
  function PlaceValue(s: string): nat
    requires Digits(s)
  {
    DigitOf(s[0]) * Power(|s| - 1) + if |s| == 1 then 0 else PlaceValue(s[1..])
  }

  function NumeralValue(s: string): int
    requires IsNumeral(s)
  {
    if Digits(s) then PlaceValue(s)
    else
      var n: int := PlaceValue(s[1..]);
      if s[0] == '-' then -n else n
  }

  lemma {:induction false} PlaceValueLast(s: string)
    requires Digits(s) && |s| > 1
    ensures PlaceValue(s) == 10 * PlaceValue(s[..|s| - 1]) + DigitOf(s[|s| - 1])
  {
    var n := |s|;
    var front, rest, d := s[..n - 1], s[1..], DigitOf(s[0]);
    assert Power(n - 1) == 10 * Power(n - 2);
    TenTimes(d, Power(n - 2));
    if n == 2 {
      assert PlaceValue(rest) == DigitOf(s[1]) * Power(0);
      assert PlaceValue(front) == d * Power(0);
    } else {
      PlaceValueLast(rest);
      assert rest[..|rest| - 1] == front[1..];
      assert PlaceValue(front) == d * Power(n - 2) + PlaceValue(front[1..]);
    }
  }

  lemma TenTimes(d: nat, p: nat)
    ensures d * (10 * p) == 10 * (d * p)
  {
  }

  lemma {:induction false} ParseNatExactly(s: string)
    ensures ParseNat(s) == if Digits(s) then Some(PlaceValue(s)) else None
  {
    if s != "" && IsDigit(s[|s| - 1]) && |s| > 1 {
      var front := s[..|s| - 1];
      ParseNatExactly(front);
      assert Digits(s) <==> Digits(front);
      if Digits(s) {
        PlaceValueLast(s);
      }
    }
  }

  /** `int()` takes exactly the numerals, space around them aside, at their value. */
  lemma ParseIntExactly(text: string)
    ensures ParseInt(text) == if IsNumeral(Strip(text)) then Some(NumeralValue(Strip(text))) else None
  {
    var s := Strip(text);
    ParseNatExactly(s);
    if s != "" {
      ParseNatExactly(s[1..]);
    }
  }

  predicate AllSpace(s: string) {
    forall c <- s :: IsSpace(c)
  }

  lemma {:induction false} TrimLeftNone(s: string)
    ensures TrimLeft(s, IsSpace) == "" <==> AllSpace(s)
  {
    if s != "" {
      TrimLeftNone(s[1..]);
      assert s == [s[0]] + s[1..];
    }
  }

  lemma StripEmpty(s: string)
    ensures Strip(s) == "" <==> AllSpace(s)
  {
    var t := TrimLeft(s, IsSpace);
    TrimLeftNone(s);
    TrimLeftClean(s, IsSpace);
    if t != "" {
      TrimRightHead(t);
    }
  }

  lemma {:induction false} TrimRightHead(t: string)
    requires t != "" && !IsSpace(t[0])
    ensures TrimRight(t, IsSpace) != ""
  {
    if IsSpace(t[|t| - 1]) {
      TrimRightHead(t[..|t| - 1]);
    }
  }
}
