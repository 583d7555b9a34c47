/**
 Escaping message text for the three parse modes. The replacer works character by character, in one pass, and never
 escapes a backslash.
 */
module TelegramEscape {

  predicate Special(mode: string, c: char) {
    if mode == "Markdown" then c in "_*[`"
    else if mode == "MarkdownV2" then c in "_*[]()~`>#+-=|{}.!"
    else mode == "HTML" && c in "&<>"
  }

  function Entity(c: char): string {
    if c == '&' then "&amp;" else if c == '<' then "&lt;" else "&gt;"
  }

  // What one character is printed as.
  function Piece(mode: string, c: char): string {
    if !Special(mode, c) then [c] else if mode == "HTML" then Entity(c) else ['\\', c]
  }

  function Escape(mode: string, text: string): string {
    if text == "" then "" else Piece(mode, text[0]) + Escape(mode, text[1..])
  }

  // The character a printed text starts with, and how much of the text prints it.
  function Head(mode: string, s: string): (head: (char, nat))
    requires s != ""
    ensures 0 < head.1 <= |s|
  {
    if mode == "HTML" then
      if Entity('&') <= s then ('&', 5) else if Entity('<') <= s then ('<', 4) else if Entity('>') <= s then ('>', 4)
      else (s[0], 1)
    else if |s| > 1 && s[0] == '\\' && Special(mode, s[1]) then (s[1], 2)
    else (s[0], 1)
  }

  function Unescape(mode: string, s: string): string {
    if s == "" then ""
    else
      var (c, n) := Head(mode, s);
      [c] + Unescape(mode, s[n..])
  }

  // The character at i is not special, or stands where escaping puts specials.
  predicate Protected(mode: string, s: string, i: nat)
    requires i < |s|
  {
    Special(mode, s[i]) ==>
      if mode == "HTML" then Entity('&') <= s[i..] || Entity('<') <= s[i..] || Entity('>') <= s[i..]
      else i > 0 && s[i - 1] == '\\'
  }

  predicate Safe(mode: string, s: string) {
    forall i :: 0 <= i < |s| ==> Protected(mode, s, i)
  }

  lemma EscapeStart(mode: string, text: string)
    requires mode != "HTML" && text != ""
    ensures Escape(mode, text) != "" && !Special(mode, Escape(mode, text)[0])
  {
  }

  lemma HeadOfPiece(mode: string, c: char, rest: string)
    requires mode != "HTML" && rest != "" ==> !Special(mode, rest[0])
    ensures Head(mode, Piece(mode, c) + rest) == (c, |Piece(mode, c)|)
    ensures (Piece(mode, c) + rest)[|Piece(mode, c)|..] == rest
  {
    var s := Piece(mode, c) + rest;
    if mode == "HTML" && c in "&<>" {
      assert Entity(c) <= s;
      assert s[1] == Entity(c)[1];
    }
  }

  /** In every mode, for every text, the original can be read back from the escaped text. */
  lemma {:induction false} UnescapeInverts(mode: string, text: string)
    ensures Unescape(mode, Escape(mode, text)) == text
  {
    if text != "" {
      var rest := Escape(mode, text[1..]);
      if mode != "HTML" && text[1..] != "" {
        EscapeStart(mode, text[1..]);
      }
      HeadOfPiece(mode, text[0], rest);
      UnescapeInverts(mode, text[1..]);
    }
  }

  lemma EscapeIsInjective(mode: string, a: string, b: string)
    requires Escape(mode, a) == Escape(mode, b)
    ensures a == b
  {
    UnescapeInverts(mode, a);
    UnescapeInverts(mode, b);
  }

  lemma TailProtected(mode: string, s: string, i: nat)
    requires s != "" && Protected(mode, s, 0) && Head(mode, s).1 <= i < |s|
    ensures Protected(mode, s, i) <==> Protected(mode, s[Head(mode, s).1..], i - Head(mode, s).1)
  {
    var n := Head(mode, s).1;
    assert s[n..][i - n..] == s[i..];
  }

  lemma HeadProtected(mode: string, s: string)
    requires s != "" && Protected(mode, s, 0)
    ensures forall i :: 0 <= i < Head(mode, s).1 ==> Protected(mode, s, i)
    ensures s == Piece(mode, Head(mode, s).0) + s[Head(mode, s).1..]
  {
    var (c, n) := Head(mode, s);
    if mode == "HTML" && n > 1 {
      assert forall i :: 0 <= i < n ==> s[i] == Entity(c)[i];
    }
  }

  lemma TailSafe(mode: string, s: string)
    requires s != "" && Protected(mode, s, 0)
    ensures Safe(mode, s) <==> Safe(mode, s[Head(mode, s).1..])
  {
    var n := Head(mode, s).1;
    var t := s[n..];
    HeadProtected(mode, s);
    if Safe(mode, t) {
      forall i | 0 <= i < |s| ensures Protected(mode, s, i) {
        if i >= n {
          assert Protected(mode, t, i - n);
          TailProtected(mode, s, i);
        }
      }
    }
    if Safe(mode, s) {
      forall j | 0 <= j < |t| ensures Protected(mode, t, j) {
        TailProtected(mode, s, j + n);
      }
    }
  }

  lemma Reprint(mode: string, s: string)
    requires s != ""
    ensures var (c, n) := Head(mode, s);
            Escape(mode, Unescape(mode, s)) == Piece(mode, c) + Escape(mode, Unescape(mode, s[n..]))
  {
    var (c, n) := Head(mode, s);
    assert ([c] + Unescape(mode, s[n..]))[1..] == Unescape(mode, s[n..]);
  }

  // A bare special is printed differently from how it stands.
  lemma BareHead(mode: string, s: string, tail: string)
    requires s != "" && !Protected(mode, s, 0)
    ensures Piece(mode, Head(mode, s).0) + tail != s
  {
    var piece := Piece(mode, Head(mode, s).0);
    if mode == "HTML" {
      assert s[0..] == s;
      assert piece <= piece + tail;
    } else {
      assert (piece + tail)[0] == '\\';
    }
  }

  lemma SameTail(piece: string, a: string, b: string)
    requires piece + a == piece + b
    ensures a == b
  {
    assert (piece + a)[|piece|..] == a && (piece + b)[|piece|..] == b;
  }

  /**
   The texts escaping can produce are exactly the safe ones: each special stands behind a backslash, and in HTML there
   is no bare angle bracket and every ampersand starts one of the three entities.
   */
  lemma {:induction false} EscapeInvertsIff(mode: string, s: string)
    ensures Escape(mode, Unescape(mode, s)) == s <==> Safe(mode, s)
  {
    if s != "" {
      var (c, n) := Head(mode, s);
      var tail := Escape(mode, Unescape(mode, s[n..]));
      Reprint(mode, s);
      if Protected(mode, s, 0) {
        TailSafe(mode, s);
        HeadProtected(mode, s);
        EscapeInvertsIff(mode, s[n..]);
        if Escape(mode, Unescape(mode, s)) == s {
          SameTail(Piece(mode, c), tail, s[n..]);
        }
      } else {
        BareHead(mode, s, tail);
      }
    }
  }

  lemma EscapedIsSafe(mode: string, text: string)
    ensures Safe(mode, Escape(mode, text))
  {
    UnescapeInverts(mode, text);
    EscapeInvertsIff(mode, Escape(mode, text));
  }

  /** Under any other parse mode the text goes out as it is. */
  lemma {:induction false} PlainUnchanged(mode: string, text: string)
    requires mode != "Markdown" && mode != "MarkdownV2" && mode != "HTML"
    ensures Escape(mode, text) == text
  {
    if text != "" {
      PlainUnchanged(mode, text[1..]);
      assert text == [text[0]] + text[1..];
    }
  }

  // ---------- a reader for which a backslash makes whatever follows it literal ----------

  datatype Token = Literal(c: char) | Markup(c: char)

  function Read(mode: string, s: string): seq<Token> {
    if s == "" then []
    else if |s| > 1 && s[0] == '\\' then [Literal(s[1])] + Read(mode, s[2..])
    else if Special(mode, s[0]) then [Markup(s[0])] + Read(mode, s[1..])
    else [Literal(s[0])] + Read(mode, s[1..])
  }

  function Literals(text: string): seq<Token> {
    seq(|text|, i requires 0 <= i < |text| => Literal(text[i]))
  }

  lemma ReadPair(mode: string, c: char, rest: string)
    ensures Read(mode, ['\\', c] + rest) == [Literal(c)] + Read(mode, rest)
  {
    assert (['\\', c] + rest)[2..] == rest;
  }

  lemma ReadOne(mode: string, c: char, rest: string)
    requires c != '\\' || rest == ""
    ensures Read(mode, [c] + rest) == [if Special(mode, c) then Markup(c) else Literal(c)] + Read(mode, rest)
  {
    assert ([c] + rest)[1..] == rest;
  }

  // How an escaped text reads, by its first characters.
  lemma ReadStep(mode: string, text: string)
    requires mode != "HTML" && text != "" && (text[0] != '\\' || |text| == 1)
    ensures Read(mode, Escape(mode, text)) == [Literal(text[0])] + Read(mode, Escape(mode, text[1..]))
  {
    if Special(mode, text[0]) {
      ReadPair(mode, text[0], Escape(mode, text[1..]));
    } else {
      ReadOne(mode, text[0], Escape(mode, text[1..]));
    }
  }

  function AfterBackslash(mode: string, c: char): seq<Token> {
    if Special(mode, c) then [Literal('\\'), Markup(c)] else [Literal(c)]
  }

  lemma ReadBackslashPiece(mode: string, c: char, rest: string)
    requires mode != "HTML"
    ensures Read(mode, ['\\'] + (Piece(mode, c) + rest)) == AfterBackslash(mode, c) + Read(mode, rest)
  {
    if Special(mode, c) {
      assert ['\\'] + (['\\', c] + rest) == ['\\', '\\'] + ([c] + rest);
      ReadPair(mode, '\\', [c] + rest);
      ReadOne(mode, c, rest);
    } else {
      assert ['\\'] + ([c] + rest) == ['\\', c] + rest;
      ReadPair(mode, c, rest);
    }
  }

  lemma ReadBackslash(mode: string, text: string)
    requires mode != "HTML" && |text| > 1 && text[0] == '\\'
    ensures Read(mode, Escape(mode, text)) == AfterBackslash(mode, text[1]) + Read(mode, Escape(mode, text[2..]))
  {
    ReadBackslashPiece(mode, text[1], Escape(mode, text[2..]));
    assert text[1..][1..] == text[2..];
  }

  lemma {:induction false} ReadsNoMore(mode: string, text: string)
    requires mode != "HTML"
    ensures |Read(mode, Escape(mode, text))| <= |text|
    decreases |text|
  {
    if text != "" {
      if text[0] != '\\' || |text| == 1 {
        ReadStep(mode, text);
        ReadsNoMore(mode, text[1..]);
      } else {
        ReadBackslash(mode, text);
        ReadsNoMore(mode, text[2..]);
      }
    }
  }

  predicate NoBackslash(text: string) {
    forall i :: 0 <= i < |text| - 1 ==> text[i] != '\\'
  }

  lemma BackslashMisread(mode: string, text: string)
    requires mode != "HTML" && |text| > 1 && text[0] == '\\'
    ensures Read(mode, Escape(mode, text)) != Literals(text)
  {
    ReadBackslash(mode, text);
    ReadsNoMore(mode, text[2..]);
    assert Literals(text)[0] == Literal('\\') && Literals(text)[1] == Literal(text[1]);
  }

  /**
   Such a reader sees the original characters, none of them as markup, exactly when no backslash stands before another
   character: escaping leaves backslashes alone, so one in front of a special undoes that special's escape.
   */
  lemma {:induction false} ReadsLiterallyIff(mode: string, text: string)
    requires mode != "HTML"
    ensures Read(mode, Escape(mode, text)) == Literals(text) <==> NoBackslash(text)
  {
    if |text| > 1 && text[0] == '\\' {
      BackslashMisread(mode, text);
    } else if text != "" {
      ReadStep(mode, text);
      var rest := Read(mode, Escape(mode, text[1..]));
      ReadsLiterallyIff(mode, text[1..]);
      assert Literals(text) == [Literal(text[0])] + Literals(text[1..]);
      assert ([Literal(text[0])] + rest)[1..] == rest;
      assert NoBackslash(text) <==> NoBackslash(text[1..]) by {
        if NoBackslash(text[1..]) {
          forall i | 0 <= i < |text| - 1 ensures text[i] != '\\' {
            if i > 0 {
              assert text[i] == text[1..][i - 1];
            }
          }
        }
      }
    }
  }
}
