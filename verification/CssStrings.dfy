/** Text inside a single-quoted CSS string. */
module CssStrings {
  import opened Numerals
  import opened Options
  import opened Pieces

  function Piece(c: char): string {
    if c == '\\' || c == '\'' then ['\\', c]
    else if c < ' ' || c > '~' then "\\" + Print(c as nat, 16) + " "
    else [c]
  }

  method CssStringEscape(s: string) returns (b: string)
    ensures b == Spelled(Piece, s)
  {
    b := "";
    for i := 0 to |s|
      invariant b == Spelled(Piece, s[..i])
    {
      var r := s[i];
      assert s[..i + 1] == s[..i] + [r];
      SpelledConcat(Piece, s[..i], [r]);
      SpelledOne(Piece, r);
      if r == '\\' || r == '\'' {
        b := b + "\\" + [r];
      } else if r < ' ' || r > '~' {
        b := b + ("\\" + Print(r as nat, 16) + " ");
      } else {
        b := b + [r];
      }
    }
    assert s[..|s|] == s;
  }

  // ---- Reading, after sections 4.3.5 and 4.3.7 of CSS Syntax Module Level 3 ----

  // How many hexadecimal digits s starts with, up to a limit.
  function HexRun(s: string, limit: nat): (n: nat)
    ensures n <= |s| && n <= limit && IsNumeral(s[..n], 16)
  {
    if limit == 0 || |s| == 0 || !IsDigit(s[0], 16) then 0 else
      var n := HexRun(s[1..], limit - 1);
      assert s[..n + 1] == [s[0]] + s[1..][..n];
      n + 1
  }

  predicate IsWhitespace(c: char) {
    c == ' ' || c == '\n' || c == '\t'
  }

  // Zero, surrogates and numbers past the last code point are read as the replacement character.
  function CodePoint(n: nat): char {
    if 0 < n < 0xD800 || 0xE000 <= n < 0x110000 then n as char else '\U{FFFD}'
  }

  // An escape, the reverse solidus already read: the character and what is left.
  function ReadEscape(s: string): (r: (char, string))
    requires |s| > 0
    ensures |r.1| < |s|
  {
    var n := HexRun(s, 6);
    if n == 0 then (s[0], s[1..])
    else
      var left := if n < |s| && IsWhitespace(s[n]) then s[n + 1..] else s[n..];
      (CodePoint(Value(s[..n], 16)), left)
  }

  // The value of a string up to its closing quote, and what follows; none when it is not closed.
  function ReadString(s: string): Option<(string, string)>
    decreases |s|
  {
    if |s| == 0 || s[0] == '\n' then None
    else if s[0] == '\'' then Some(("", s[1..]))
    else if s[0] != '\\' then Prepended(s[0], ReadString(s[1..]))
    else if |s| == 1 then None
    else if s[1] == '\n' then ReadString(s[2..])
    else
      var e := ReadEscape(s[1..]);
      Prepended(e.0, ReadString(e.1))
  }

  function Readable(c: char): char {
    if c == '\0' then '\U{FFFD}' else c
  }

  lemma {:induction false} HexRunStops(digits: string, limit: nat, left: string)
    requires IsNumeral(digits, 16) && |digits| <= limit && |left| > 0 && !IsDigit(left[0], 16)
    ensures HexRun(digits + left, limit) == |digits|
  {
    var s := digits + left;
    if |digits| > 0 {
      HexRunStops(digits[1..], limit - 1, left);
      assert s[1..] == digits[1..] + left;
    } else {
      assert s == left;
    }
  }

  lemma HexEscapeIsRead(c: char, left: string)
    ensures ReadEscape(Print(c as nat, 16) + " " + left) == (Readable(c), left)
  {
    var digits := Print(c as nat, 16);
    assert Power(16, 6) == 0x1000000 by {
      assert Power(16, 1) == 16 * Power(16, 0) && Power(16, 2) == 16 * Power(16, 1);
      assert Power(16, 3) == 16 * Power(16, 2) && Power(16, 4) == 16 * Power(16, 3);
    }
    PrintLength(c as nat, 16, 6);
    HexRunStops(digits, 6, " " + left);
    var s := digits + " " + left;
    assert s == digits + (" " + left);
    assert s[..|digits|] == digits && s[|digits| + 1..] == left;
  }

  lemma EscapeStep(s: string)
    requires |s| > 1 && s[0] == '\\' && s[1] != '\n'
    ensures ReadString(s) == Prepended(ReadEscape(s[1..]).0, ReadString(ReadEscape(s[1..]).1))
  {
  }

  lemma HexPieceIsRead(c: char, left: string)
    ensures ReadString("\\" + Print(c as nat, 16) + " " + left) == Prepended(Readable(c), ReadString(left))
  {
    var digits := Print(c as nat, 16);
    var s := "\\" + digits + " " + left;
    assert s[1..] == digits + " " + left;
    assert s[1] == digits[0] && IsDigit(digits[0], 16);
    HexEscapeIsRead(c, left);
    EscapeStep(s);
  }

  lemma QuotedPieceIsRead(c: char, left: string)
    requires c == '\\' || c == '\''
    ensures ReadString(['\\', c] + left) == Prepended(c, ReadString(left))
  {
    var s := ['\\', c] + left;
    assert s[1..] == [c] + left && ([c] + left)[1..] == left;
    EscapeStep(s);
  }

  lemma PieceIsRead(c: char, left: string)
    ensures ReadString(Piece(c) + left) == Prepended(Readable(c), ReadString(left))
  {
    if c == '\\' || c == '\'' {
      QuotedPieceIsRead(c, left);
    } else if c < ' ' || c > '~' {
      HexPieceIsRead(c, left);
    } else {
      assert ([c] + left)[1..] == left;
    }
  }

  function ReadableAll(s: string): (r: string)
    ensures |r| == |s| && forall i :: 0 <= i < |s| ==> r[i] == Readable(s[i])
  {
    if |s| == 0 then "" else
      var r := ReadableAll(s[1..]);
      assert forall i :: 0 < i < |s| ==> ([Readable(s[0])] + r)[i] == r[i - 1] && s[i] == s[1..][i - 1];
      [Readable(s[0])] + r
  }

  lemma {:induction false} WrittenIsRead(s: string, left: string)
    ensures ReadString(Written(Piece, s, "'" + left)) == Some((ReadableAll(s), left))
  {
    if |s| == 0 {
      assert ("'" + left)[1..] == left;
    } else {
      WrittenIsRead(s[1..], left);
      PieceIsRead(s[0], Written(Piece, s[1..], "'" + left));
    }
  }

  /** The escaped text reads as the text, never ends the string early, and swallows nothing after it. */
  lemma EscapeIsRead(s: string, left: string)
    ensures ReadString(Spelled(Piece, s) + "'" + left) == Some((ReadableAll(s), left))
  {
    WrittenIsRead(s, left);
    SpelledIsWritten(Piece, s, "'" + left);
    Associated(Spelled(Piece, s), "'", left);
  }

  /** It reads back exactly when it holds no NUL. */
  lemma RoundTripIffNoNul(s: string, left: string)
    ensures ReadString(Spelled(Piece, s) + "'" + left) == Some((s, left)) <==> '\0' !in s
  {
    EscapeIsRead(s, left);
    ReadableIsSame(s);
  }

  lemma ReadableIsSame(s: string)
    ensures ReadableAll(s) == s <==> '\0' !in s
  {
    if '\0' in s {
      var i :| 0 <= i < |s| && s[i] == '\0';
      assert ReadableAll(s)[i] != s[i];
    }
  }

  /** What is written is printable ASCII. */
  lemma {:induction false} WrittenIsAscii(s: string)
    ensures forall i :: 0 <= i < |Spelled(Piece, s)| ==> ' ' <= Spelled(Piece, s)[i] <= '~'
  {
    if |s| > 0 {
      WrittenIsAscii(s[1..]);
      PieceIsAscii(s[0]);
    }
  }

  lemma PieceIsAscii(c: char)
    ensures forall i :: 0 <= i < |Piece(c)| ==> ' ' <= Piece(c)[i] <= '~'
  {
    var digits := Print(c as nat, 16);
    assert forall i :: 0 <= i < |digits| ==> IsDigit(digits[i], 16) && ' ' <= digits[i] <= '~';
  }

  /** Printable text with neither backslash nor quote is written as it is. */
  lemma {:induction false} PlainStays(s: string)
    requires forall i :: 0 <= i < |s| ==> ' ' <= s[i] <= '~' && s[i] != '\\' && s[i] != '\''
    ensures Spelled(Piece, s) == s
  {
    if |s| > 0 {
      PlainStays(s[1..]);
      assert s == [s[0]] + s[1..];
    }
  }
}
