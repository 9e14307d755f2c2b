/** Text inside a Typst string literal. */
module TypstStrings {
  import opened Options
  import opened Pieces

  function Backslashes(c: char): string {
    if c == '\\' then "\\\\" else [c]
  }

  function Quotes(c: char): string {
    if c == '"' then "\\\"" else [c]
  }

  function Newlines(c: char): string {
    if c == '\n' then "\\n" else [c]
  }

  // Carriage return and line feed become a line feed.
  function Unix(s: string): string {
    if |s| < 2 then s
    else if s[0] == '\r' && s[1] == '\n' then "\n" + Unix(s[2..])
    else [s[0]] + Unix(s[1..])
  }

  // The four passes, in order.
  function EscapeTypstString(s: string): string {
    Spelled(Newlines, Unix(Spelled(Quotes, Spelled(Backslashes, s))))
  }

  // ---- Reading a literal ----

  // The value of a literal up to its closing quote, and what follows.
  function ReadLiteral(s: string): Option<(string, string)>
    decreases |s|
  {
    if |s| == 0 then None
    else if s[0] == '"' then Some(("", s[1..]))
    else if s[0] != '\\' then Prepended(s[0], ReadLiteral(s[1..]))
    else if |s| == 1 then None
    else if s[1] == '\\' || s[1] == '"' then Prepended(s[1], ReadLiteral(s[2..]))
    else if s[1] == 'n' then Prepended('\n', ReadLiteral(s[2..]))
    else None
  }

  // ---- The passes as one ----

  function Literal(c: char): string {
    if c == '\\' then "\\\\" else if c == '"' then "\\\"" else if c == '\n' then "\\n" else [c]
  }

  function Slashed(c: char): string {
    if c == '\\' then "\\\\" else if c == '"' then "\\\"" else [c]
  }

  lemma {:induction false} FirstTwo(s: string)
    ensures Spelled(Quotes, Spelled(Backslashes, s)) == Spelled(Slashed, s)
  {
    if |s| > 0 {
      FirstTwo(s[1..]);
      SpelledConcat(Quotes, Backslashes(s[0]), Spelled(Backslashes, s[1..]));
      if s[0] == '\\' {
        SpelledConcat(Quotes, "\\", "\\");
        SpelledOne(Quotes, '\\');
        assert "\\" + "\\" == "\\\\";
      } else {
        SpelledOne(Quotes, s[0]);
      }
    }
  }

  // A piece that is not a carriage return is passed over.
  lemma {:induction false} UnixPasses(a: string, b: string)
    requires forall i :: 0 <= i < |a| ==> a[i] != '\r'
    ensures Unix(a + b) == a + Unix(b)
  {
    if |a| == 0 {
      assert a + b == b;
    } else {
      UnixPasses(a[1..], b);
      assert (a + b)[1..] == a[1..] + b;
      UnixOne(a + b);
      assert a == [a[0]] + a[1..];
      assert [a[0]] + (a[1..] + Unix(b)) == a + Unix(b);
    }
  }

  lemma UnixOne(s: string)
    requires |s| > 0 && s[0] != '\r'
    ensures Unix(s) == [s[0]] + Unix(s[1..])
  {
    if |s| == 1 {
      assert s == [s[0]] + s[1..];
    }
  }

  // Line ends are the same before and after the first two passes.
  lemma {:induction false} UnixCommutes(s: string)
    ensures Unix(Spelled(Slashed, s)) == Spelled(Slashed, Unix(s))
    decreases |s|
  {
    if |s| == 0 {
    } else if s[0] != '\r' {
      UnixCommutes(s[1..]);
      UnixPasses(Slashed(s[0]), Spelled(Slashed, s[1..]));
      UnixPasses([s[0]], s[1..]);
      assert s == [s[0]] + s[1..];
      SpelledConcat(Slashed, [s[0]], Unix(s[1..]));
      SpelledOne(Slashed, s[0]);
    } else {
      CarriageReturn(s);
    }
  }

  lemma {:induction false} CarriageReturn(s: string)
    requires |s| > 0 && s[0] == '\r'
    ensures Unix(Spelled(Slashed, s)) == Spelled(Slashed, Unix(s))
    decreases |s|, 0
  {
    if |s| == 1 {
      SpelledOne(Slashed, '\r');
      assert s == ['\r'];
    } else if s[1] == '\n' {
      UnixCommutes(s[2..]);
      assert Spelled(Slashed, s[1..]) == "\n" + Spelled(Slashed, s[2..]) by {
        assert s[1..][1..] == s[2..];
      }
      var out := Spelled(Slashed, s);
      assert out == "\r" + ("\n" + Spelled(Slashed, s[2..]));
      assert out[2..] == Spelled(Slashed, s[2..]);
      SpelledConcat(Slashed, "\n", Unix(s[2..]));
      SpelledOne(Slashed, '\n');
    } else {
      UnixCommutes(s[1..]);
      var out := Spelled(Slashed, s);
      assert out == "\r" + Spelled(Slashed, s[1..]);
      assert Spelled(Slashed, s[1..])[0] == Slashed(s[1])[0] != '\n';
      assert out[1..] == Spelled(Slashed, s[1..]);
      SpelledConcat(Slashed, "\r", Unix(s[1..]));
      SpelledOne(Slashed, '\r');
    }
  }

  lemma {:induction false} LastPass(s: string)
    ensures Spelled(Newlines, Spelled(Slashed, s)) == Spelled(Literal, s)
  {
    if |s| > 0 {
      LastPass(s[1..]);
      SpelledConcat(Newlines, Slashed(s[0]), Spelled(Slashed, s[1..]));
      if s[0] == '\\' || s[0] == '"' {
        SpelledConcat(Newlines, "\\", [s[0]]);
        SpelledOne(Newlines, '\\');
        SpelledOne(Newlines, s[0]);
        assert Slashed(s[0]) == "\\" + [s[0]];
      } else {
        SpelledOne(Newlines, s[0]);
      }
    }
  }

  /** Four passes over the text are one pass over its Unix form. */
  lemma PassesAreOne(s: string)
    ensures EscapeTypstString(s) == Spelled(Literal, Unix(s))
  {
    FirstTwo(s);
    UnixCommutes(s);
    LastPass(Unix(s));
  }

  lemma OneLiteral(c: char, rest: string)
    ensures ReadLiteral(Literal(c) + rest) == Prepended(c, ReadLiteral(rest))
  {
    var all := Literal(c) + rest;
    if c == '\\' || c == '"' || c == '\n' {
      assert all[2..] == rest;
    } else {
      assert all[1..] == rest;
    }
  }

  lemma {:induction false} LiteralIsRead(s: string, left: string)
    ensures ReadLiteral(Written(Literal, s, "\"" + left)) == Some((s, left))
  {
    if |s| == 0 {
      assert ("\"" + left)[1..] == left;
    } else {
      LiteralIsRead(s[1..], left);
      OneLiteral(s[0], Written(Literal, s[1..], "\"" + left));
      assert [s[0]] + s[1..] == s;
    }
  }

  /** The escaped text reads as the text in Unix form, and the literal ends where it should. */
  lemma EscapeIsRead(s: string, left: string)
    ensures ReadLiteral(EscapeTypstString(s) + "\"" + left) == Some((Unix(s), left))
  {
    PassesAreOne(s);
    LiteralIsRead(Unix(s), left);
    SpelledIsWritten(Literal, Unix(s), "\"" + left);
    Associated(Spelled(Literal, Unix(s)), "\"", left);
  }

  /** It reads back exactly when it holds no carriage return before a line feed. */
  lemma RoundTripIffUnix(s: string, left: string)
    ensures ReadLiteral(EscapeTypstString(s) + "\"" + left) == Some((s, left)) <==>
            forall i :: 0 < i < |s| ==> !(s[i - 1] == '\r' && s[i] == '\n')
  {
    EscapeIsRead(s, left);
    UnixLength(s);
  }

  lemma {:induction false} UnixLength(s: string)
    ensures |Unix(s)| <= |s|
    ensures Unix(s) == s <==> forall i :: 0 < i < |s| ==> !(s[i - 1] == '\r' && s[i] == '\n')
    decreases |s|
  {
    if |s| < 2 {
    } else if s[0] == '\r' && s[1] == '\n' {
      UnixLength(s[2..]);
      assert s[1 - 1] == '\r' && s[1] == '\n';
    } else {
      UnixLength(s[1..]);
      assert s == [s[0]] + s[1..];
      forall i | 0 <= i < |s[1..]| ensures s[1..][i] == s[i + 1] {}
      if forall i :: 0 < i < |s| ==> !(s[i - 1] == '\r' && s[i] == '\n') {
        forall i | 0 < i < |s[1..]| ensures !(s[1..][i - 1] == '\r' && s[1..][i] == '\n') {
          assert s[1..][i - 1] == s[(i + 1) - 1] && s[1..][i] == s[i + 1];
        }
      }
    }
  }

  lemma PairFirst(s: string)
    ensures Unix("\r\n" + s) == "\n" + Unix(s)
  {
    assert ("\r\n" + s)[2..] == s;
  }

  lemma OtherFirst(c: char, s: string)
    requires c != '\r' || |s| == 0 || s[0] != '\n'
    ensures Unix([c] + s) == [c] + Unix(s)
  {
    assert ([c] + s)[1..] == s;
  }

  predicate StartsPair(s: string) {
    |s| >= 2 && s[0] == '\r' && s[1] == '\n'
  }

  lemma PairThen(a: string, pair: string)
    requires Unix(a + pair) == Unix(a) + Unix(pair)
    ensures Unix("\r\n" + a + pair) == Unix("\r\n" + a) + Unix(pair)
  {
    PairFirst(a);
    PairFirst(a + pair);
    Associated("\r\n", a, pair);
    Associated("\n", Unix(a), Unix(pair));
  }

  lemma OtherThen(c: char, a: string, pair: string)
    requires Unix(a + pair) == Unix(a) + Unix(pair) && StartsPair(pair) && !StartsPair([c] + a)
    ensures Unix([c] + a + pair) == Unix([c] + a) + Unix(pair)
  {
    assert |a| > 0 ==> ([c] + a)[1] == a[0];
    OtherFirst(c, a);
    OtherFirst(c, a + pair);
    Associated([c], a, pair);
    Associated([c], Unix(a), Unix(pair));
  }

  lemma {:induction false} UnixSplits(a: string, pair: string)
    requires StartsPair(pair)
    ensures Unix(a + pair) == Unix(a) + Unix(pair)
    decreases |a|
  {
    if |a| == 0 {
      assert a + pair == pair;
    } else if StartsPair(a) {
      UnixSplits(a[2..], pair);
      PairThen(a[2..], pair);
      assert a == "\r\n" + a[2..];
    } else {
      UnixSplits(a[1..], pair);
      assert a == [a[0]] + a[1..];
      OtherThen(a[0], a[1..], pair);
    }
  }

  /** Each carriage return before a line feed goes, wherever the pair stands. */
  lemma LineEndsGo(a: string, b: string)
    ensures Unix(a + "\r\n" + b) == Unix(a) + "\n" + Unix(b)
  {
    UnixSplits(a, "\r\n" + b);
    PairFirst(b);
    Associated(a, "\r\n", b);
    Associated(Unix(a), "\n", Unix(b));
  }
}
