/** The pieces of formatted printing and scanning the password encoding uses: decimals, literals and splitting. */
module Scanning {
  import opened Options

  predicate IsDigit(c: char) {
    '0' <= c <= '9'
  }

  function Digit(n: int): char
    requires 0 <= n < 10
  {
    ('0' as int + n) as char
  }

  function Decimal(n: nat): string {
    if n < 10 then [Digit(n)] else Decimal(n / 10) + [Digit(n % 10)]
  }

  function Number(digits: string): nat
    requires forall i :: 0 <= i < |digits| ==> IsDigit(digits[i])
  {
    if digits == "" then 0
    else
      assert IsDigit(digits[|digits| - 1]);
      Number(digits[..|digits| - 1]) * 10 + (digits[|digits| - 1] as int - '0' as int)
  }

  // The longest run of digits at the front.
  function DigitRun(s: string): nat
    ensures DigitRun(s) <= |s| && forall i :: 0 <= i < DigitRun(s) ==> IsDigit(s[i])
    ensures DigitRun(s) < |s| ==> !IsDigit(s[DigitRun(s)])
  {
    if s != "" && IsDigit(s[0]) then 1 + DigitRun(s[1..]) else 0
  }

  // Blanks a numeric verb skips; a line feed is an error there.
  predicate IsBlank(c: char) {
    var n := c as int;
    (9 <= n <= 13 && n != 10) || n == 0x20 || n == 0x85 || n == 0xA0 || n == 0x1680 || 0x2000 <= n <= 0x200A
    || n == 0x2028 || n == 0x2029 || n == 0x202F || n == 0x205F || n == 0x3000
  }

  function SkipBlanks(s: string): string {
    if s != "" && IsBlank(s[0]) then SkipBlanks(s[1..]) else s
  }

  // %d into an unsigned variable of `size` values: the number and what follows it.
  function ScanUnsigned(s: string, size: nat): Option<(nat, string)> {
    var t := SkipBlanks(s);
    var n := DigitRun(t);
    if n == 0 || Number(t[..n]) >= size then None else Some((Number(t[..n]), t[n..]))
  }

  // %d into a 64-bit signed variable.
  function ScanSigned(s: string): Option<(int, string)> {
    var t := SkipBlanks(s);
    var signed := t != "" && (t[0] == '+' || t[0] == '-');
    var u := if signed then t[1..] else t;
    var n := DigitRun(u);
    if n == 0 then None
    else
      var value := if signed && t[0] == '-' then -(Number(u[..n]) as int) else Number(u[..n]);
      if -0x8000_0000_0000_0000 <= value < 0x8000_0000_0000_0000 then Some((value, u[n..])) else None
  }

  // A literal stretch of the format must match as it stands.
  function ScanLiteral(s: string, literal: string): Option<string> {
    if literal <= s then Some(s[|literal|..]) else None
  }

  function Split(s: string, sep: char): seq<string> {
    if s == "" then [""]
    else
      var rest := Split(s[1..], sep);
      if s[0] == sep then [""] + rest
      else if rest == [] then [[s[0]]]
      else [[s[0]] + rest[0]] + rest[1..]
  }

  predicate Free(s: string, c: char) {
    forall i :: 0 <= i < |s| ==> s[i] != c
  }

  lemma {:induction false} SplitFirst(part: string, sep: char, rest: string)
    requires Free(part, sep)
    ensures Split(part + [sep] + rest, sep) == [part] + Split(rest, sep)
  {
    var s := part + [sep] + rest;
    if part == "" {
      assert s[1..] == rest;
    } else {
      assert s[1..] == part[1..] + [sep] + rest;
      SplitFirst(part[1..], sep, rest);
      assert part == [part[0]] + part[1..];
    }
  }

  lemma {:induction false} SplitLast(part: string, sep: char)
    requires Free(part, sep)
    ensures Split(part, sep) == [part]
  {
    if part != "" {
      SplitLast(part[1..], sep);
      assert part == [part[0]] + part[1..];
    }
  }

  function Join(parts: seq<string>, sep: char): string {
    if parts == [] then ""
    else if |parts| == 1 then parts[0]
    else parts[0] + [sep] + Join(parts[1..], sep)
  }

  /** Splitting undoes joining when no part contains the separator. */
  lemma {:induction false} SplitInvertsJoin(parts: seq<string>, sep: char)
    requires parts != [] && forall i :: 0 <= i < |parts| ==> Free(parts[i], sep)
    ensures Split(Join(parts, sep), sep) == parts
  {
    if |parts| == 1 {
      SplitLast(parts[0], sep);
    } else {
      SplitFirst(parts[0], sep, Join(parts[1..], sep));
      SplitInvertsJoin(parts[1..], sep);
    }
  }

  lemma {:induction false} DecimalDigits(n: nat)
    ensures Decimal(n) != "" && forall i :: 0 <= i < |Decimal(n)| ==> IsDigit(Decimal(n)[i])
    ensures Number(Decimal(n)) == n
  {
    if n >= 10 {
      DecimalDigits(n / 10);
      var s := Decimal(n);
      assert s[..|s| - 1] == Decimal(n / 10);
    } else {
      assert Decimal(n)[..0] == "";
    }
  }

  lemma {:induction false} DigitRunOf(digits: string, rest: string)
    requires forall i :: 0 <= i < |digits| ==> IsDigit(digits[i])
    requires rest == "" || !IsDigit(rest[0])
    ensures DigitRun(digits + rest) == |digits|
  {
    if digits == "" {
      assert digits + rest == rest;
    } else {
      assert (digits + rest)[1..] == digits[1..] + rest;
      DigitRunOf(digits[1..], rest);
    }
  }

  // What the scanner finds at the front of a printed number.
  lemma PrintedFront(n: nat, rest: string)
    requires rest == "" || !IsDigit(rest[0])
    ensures var s, k := Decimal(n) + rest, |Decimal(n)|;
            && k > 0 && IsDigit(s[0]) && SkipBlanks(s) == s && DigitRun(s) == k
            && s[..k] == Decimal(n) && s[k..] == rest && Number(s[..k]) == n
  {
    DecimalDigits(n);
    DigitRunOf(Decimal(n), rest);
  }

  /** Scanning what %d printed gives the number back and stops right after it. */
  lemma ScanPrinted(n: nat, rest: string, size: nat)
    requires n < size && (rest == "" || !IsDigit(rest[0]))
    ensures ScanUnsigned(Decimal(n) + rest, size) == Some((n, rest))
    ensures n < 0x8000_0000_0000_0000 ==> ScanSigned(Decimal(n) + rest) == Some((n, rest))
  {
    PrintedFront(n, rest);
  }

  /** A number the variable cannot hold is refused, not wrapped. */
  lemma ScanTooLarge(n: nat, rest: string, size: nat)
    requires n >= size && (rest == "" || !IsDigit(rest[0]))
    ensures ScanUnsigned(Decimal(n) + rest, size) == None
  {
    PrintedFront(n, rest);
  }
}
