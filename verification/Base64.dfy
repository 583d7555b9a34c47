/** Base64 with the standard alphabet and no padding: section 4 of RFC 4648, padding omitted as in section 3.2. */
module Base64 {
  import opened Options

  type byte = x: int | 0 <= x < 256

  type sextet = x: int | 0 <= x < 64

  // ---------- bytes and sextets ----------

  // Three bytes x, y, z against four sextets a, b, c, d.
  function SextetA(x: byte): sextet { x / 4 }
  function SextetB(x: byte, y: byte): sextet { x % 4 * 16 + y / 16 }
  function SextetC(y: byte, z: byte): sextet { y % 16 * 4 + z / 64 }
  function SextetD(z: byte): sextet { z % 64 }

  function ByteX(a: sextet, b: sextet): byte { a * 4 + b / 16 }
  function ByteY(b: sextet, c: sextet): byte { b % 16 * 16 + c / 4 }
  function ByteZ(c: sextet, d: sextet): byte { c % 4 * 64 + d }

  function Sextets(bs: seq<byte>): seq<sextet> {
    if bs == [] then []
    else if |bs| == 1 then [SextetA(bs[0]), SextetB(bs[0], 0)]
    else if |bs| == 2 then [SextetA(bs[0]), SextetB(bs[0], bs[1]), SextetC(bs[1], 0)]
    else [SextetA(bs[0]), SextetB(bs[0], bs[1]), SextetC(bs[1], bs[2]), SextetD(bs[2])] + Sextets(bs[3..])
  }

  // Bits left over in the last sextet are ignored; a lone sextet is no byte.
  function Bytes(ss: seq<sextet>): Option<seq<byte>> {
    if ss == [] then Some([])
    else if |ss| == 1 then None
    else if |ss| == 2 then Some([ByteX(ss[0], ss[1])])
    else if |ss| == 3 then Some([ByteX(ss[0], ss[1]), ByteY(ss[1], ss[2])])
    else
      match Bytes(ss[4..])
      case None => None
      case Some(rest) => Some([ByteX(ss[0], ss[1]), ByteY(ss[1], ss[2]), ByteZ(ss[2], ss[3])] + rest)
  }

  lemma SplitThenJoin(x: byte, y: byte, z: byte)
    ensures ByteX(SextetA(x), SextetB(x, y)) == x
    ensures ByteY(SextetB(x, y), SextetC(y, z)) == y
    ensures ByteZ(SextetC(y, z), SextetD(z)) == z
  {
  }

  lemma JoinThenSplit(a: sextet, b: sextet, c: sextet, d: sextet)
    ensures SextetA(ByteX(a, b)) == a
    ensures SextetB(ByteX(a, b), ByteY(b, c)) == b
    ensures SextetC(ByteY(b, c), ByteZ(c, d)) == c
    ensures SextetD(ByteZ(c, d)) == d
    ensures SextetB(ByteX(a, b), 0) == b - b % 16
    ensures SextetC(ByteY(b, c), 0) == c - c % 4
    ensures SextetB(ByteX(a, b), 0) % 16 == 0 && SextetC(ByteY(b, c), 0) % 4 == 0
  {
  }

  lemma OneByte(x: byte)
    ensures Bytes(Sextets([x])) == Some([x])
  {
    var (a, b) := (SextetA(x), SextetB(x, 0));
    assert Sextets([x]) == [a, b];
    assert Bytes([a, b]) == Some([ByteX(a, b)]);
    SplitThenJoin(x, 0, 0);
  }

  lemma TwoBytes(x: byte, y: byte)
    ensures Bytes(Sextets([x, y])) == Some([x, y])
  {
    SplitThenJoin(x, y, 0);
  }

  lemma ThreeBytes(x: byte, y: byte, z: byte, rest: seq<byte>)
    requires Bytes(Sextets(rest)) == Some(rest)
    ensures Bytes(Sextets([x, y, z] + rest)) == Some([x, y, z] + rest)
  {
    SplitThenJoin(x, y, z);
    var bs := [x, y, z] + rest;
    assert bs[3..] == rest;
    assert Sextets(bs)[4..] == Sextets(rest);
  }

  lemma {:induction false} BytesInvert(bs: seq<byte>)
    ensures Bytes(Sextets(bs)) == Some(bs)
  {
    if |bs| == 1 {
      OneByte(bs[0]);
      assert bs == [bs[0]];
    } else if |bs| == 2 {
      TwoBytes(bs[0], bs[1]);
      assert bs == [bs[0], bs[1]];
    } else if |bs| > 2 {
      BytesInvert(bs[3..]);
      ThreeBytes(bs[0], bs[1], bs[2], bs[3..]);
      assert bs == [bs[0], bs[1], bs[2]] + bs[3..];
    }
  }

  // The bits the last sextet has beyond whole bytes.
  predicate LeftoverZero(ss: seq<sextet>) {
    (|ss| % 4 == 2 ==> ss[|ss| - 1] % 16 == 0) && (|ss| % 4 == 3 ==> ss[|ss| - 1] % 4 == 0)
  }

  lemma TwoSextets(a: sextet, b: sextet)
    ensures Sextets(Bytes([a, b]).value) == [a, b] <==> b % 16 == 0
  {
    JoinThenSplit(a, b, 0, 0);
    assert Sextets(Bytes([a, b]).value)[1] == SextetB(ByteX(a, b), 0);
  }

  lemma ThreeSextets(a: sextet, b: sextet, c: sextet)
    ensures Sextets(Bytes([a, b, c]).value) == [a, b, c] <==> c % 4 == 0
  {
    JoinThenSplit(a, b, c, 0);
    assert Sextets(Bytes([a, b, c]).value)[2] == SextetC(ByteY(b, c), 0);
  }

  lemma FullGroup(ss: seq<sextet>)
    requires |ss| >= 4 && Bytes(ss).Some?
    ensures Bytes(ss[4..]).Some?
    ensures Sextets(Bytes(ss).value) == ss[..4] + Sextets(Bytes(ss[4..]).value)
  {
    JoinThenSplit(ss[0], ss[1], ss[2], ss[3]);
    var bs, rest := Bytes(ss).value, Bytes(ss[4..]).value;
    assert |bs| >= 3 && bs[3..] == rest;
    assert ss[..4] == [ss[0], ss[1], ss[2], ss[3]];
  }

  lemma SamePrefix(p: seq<sextet>, a: seq<sextet>, b: seq<sextet>)
    ensures p + a == p + b <==> a == b
  {
    assert (p + a)[|p|..] == a && (p + b)[|p|..] == b;
  }

  lemma LeftoverShift(ss: seq<sextet>)
    requires |ss| >= 4
    ensures LeftoverZero(ss) <==> LeftoverZero(ss[4..])
  {
    assert |ss[4..]| % 4 == |ss| % 4;
    assert ss[4..] != [] ==> ss[4..][|ss| - 5] == ss[|ss| - 1];
  }

  lemma {:induction false} SextetsInvertIff(ss: seq<sextet>)
    requires Bytes(ss).Some?
    ensures Sextets(Bytes(ss).value) == ss <==> LeftoverZero(ss)
  {
    if |ss| == 2 {
      TwoSextets(ss[0], ss[1]);
      assert ss == [ss[0], ss[1]];
    } else if |ss| == 3 {
      ThreeSextets(ss[0], ss[1], ss[2]);
      assert ss == [ss[0], ss[1], ss[2]];
    } else if |ss| > 3 {
      FullGroup(ss);
      SextetsInvertIff(ss[4..]);
      LeftoverShift(ss);
      SamePrefix(ss[..4], Sextets(Bytes(ss[4..]).value), ss[4..]);
      assert ss == ss[..4] + ss[4..];
    }
  }

  // ---------- the alphabet ----------

  function EncodeChar(v: sextet): char {
    if v < 26 then ('A' as int + v) as char
    else if v < 52 then ('a' as int + (v - 26)) as char
    else if v < 62 then ('0' as int + (v - 52)) as char
    else if v == 62 then '+'
    else '/'
  }

  function DecodeChar(c: char): Option<sextet> {
    if 'A' <= c <= 'Z' then Some(c as int - 'A' as int)
    else if 'a' <= c <= 'z' then Some(c as int - 'a' as int + 26)
    else if '0' <= c <= '9' then Some(c as int - '0' as int + 52)
    else if c == '+' then Some(62)
    else if c == '/' then Some(63)
    else None
  }

  function Chars(ss: seq<sextet>): string {
    if ss == [] then "" else [EncodeChar(ss[0])] + Chars(ss[1..])
  }

  // The decoder skips line breaks wherever they are and fails on any other character outside the alphabet.
  function Values(s: string): Option<seq<sextet>> {
    if s == "" then Some([])
    else if s[0] == '\r' || s[0] == '\n' then Values(s[1..])
    else
      match (DecodeChar(s[0]), Values(s[1..]))
      case (Some(v), Some(rest)) => Some([v] + rest)
      case _ => None
  }

  function Encode(bs: seq<byte>): string {
    Chars(Sextets(bs))
  }

  function Decode(s: string): Option<seq<byte>> {
    match Values(s)
    case None => None
    case Some(ss) => Bytes(ss)
  }

  lemma CharsInvert(v: sextet)
    ensures DecodeChar(EncodeChar(v)) == Some(v)
    ensures var c := EncodeChar(v); c != '\r' && c != '\n' && c != '$'
  {
  }

  lemma CharsInvertBack(c: char)
    requires DecodeChar(c).Some?
    ensures EncodeChar(DecodeChar(c).value) == c
  {
  }

  lemma {:induction false} ValuesInvert(ss: seq<sextet>)
    ensures Values(Chars(ss)) == Some(ss)
    ensures forall i :: 0 <= i < |Chars(ss)| ==> Chars(ss)[i] != '$'
    ensures NoLineBreaks(Chars(ss))
  {
    if ss != [] {
      CharsInvert(ss[0]);
      ValuesInvert(ss[1..]);
      assert Chars(ss)[1..] == Chars(ss[1..]) && ss == [ss[0]] + ss[1..];
    }
  }

  predicate NoLineBreaks(s: string) {
    forall i :: 0 <= i < |s| ==> s[i] != '\r' && s[i] != '\n'
  }

  lemma {:induction false} CharsOfValues(s: string)
    requires Values(s).Some? && NoLineBreaks(s)
    ensures Chars(Values(s).value) == s
  {
    if s != "" {
      CharsInvertBack(s[0]);
      CharsOfValues(s[1..]);
      assert Values(s).value[1..] == Values(s[1..]).value;
    }
  }

  /** Decoding inverts encoding on byte strings of every length. */
  lemma DecodeInverts(bs: seq<byte>)
    ensures Decode(Encode(bs)) == Some(bs)
    ensures forall i :: 0 <= i < |Encode(bs)| ==> Encode(bs)[i] != '$'
  {
    ValuesInvert(Sextets(bs));
    BytesInvert(bs);
  }

  /** A decodable text is what Encode prints exactly when it has no line breaks and no bits left over. */
  lemma EncodeInvertsIff(s: string)
    requires Decode(s).Some?
    ensures Encode(Decode(s).value) == s <==> NoLineBreaks(s) && LeftoverZero(Values(s).value)
  {
    var ss := Values(s).value;
    SextetsInvertIff(ss);
    ValuesInvert(Sextets(Decode(s).value));
    if NoLineBreaks(s) {
      CharsOfValues(s);
    }
    if Encode(Decode(s).value) == s {
      assert Values(s) == Some(Sextets(Decode(s).value));
    }
  }

  // ---------- which texts decode ----------

  predicate InAlphabet(c: char) {
    'A' <= c <= 'Z' || 'a' <= c <= 'z' || '0' <= c <= '9' || c == '+' || c == '/'
  }

  function SignificantCount(s: string): nat {
    if s == "" then 0 else (if s[0] == '\r' || s[0] == '\n' then 0 else 1) + SignificantCount(s[1..])
  }

  lemma {:induction false} ValuesDefinedIff(s: string)
    ensures Values(s).Some? <==> forall i :: 0 <= i < |s| ==> InAlphabet(s[i]) || s[i] == '\r' || s[i] == '\n'
    ensures Values(s).Some? ==> |Values(s).value| == SignificantCount(s)
  {
    if s != "" {
      ValuesDefinedIff(s[1..]);
      assert forall i :: 0 < i < |s| ==> s[i] == s[1..][i - 1];
    }
  }

  lemma SameRemainder(n: nat)
    requires n >= 4
    ensures (n - 4) % 4 == n % 4
  {
  }

  lemma {:induction false} BytesDefinedIff(ss: seq<sextet>)
    ensures Bytes(ss).Some? <==> |ss| % 4 != 1
  {
    if |ss| >= 4 {
      BytesDefinedIff(ss[4..]);
      SameRemainder(|ss|);
      assert Bytes(ss).Some? <==> Bytes(ss[4..]).Some?;
    }
  }

  /** A text decodes exactly if it holds nothing but the alphabet and line breaks, and no lone character is left over. */
  lemma DecodesIff(s: string)
    ensures Decode(s).Some? <==>
            (forall i :: 0 <= i < |s| ==> InAlphabet(s[i]) || s[i] == '\r' || s[i] == '\n') && SignificantCount(s) % 4 != 1
  {
    ValuesDefinedIff(s);
    if Values(s).Some? {
      BytesDefinedIff(Values(s).value);
    }
  }
}
