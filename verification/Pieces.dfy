/** Texts put together piece by piece. */
module Pieces {
  import opened Options

  // Every character replaced by its piece.
  function Spelled(piece: char -> string, s: string): string {
    if |s| == 0 then "" else piece(s[0]) + Spelled(piece, s[1..])
  }

  lemma {:induction false} SpelledConcat(piece: char -> string, a: string, b: string)
    ensures Spelled(piece, a + b) == Spelled(piece, a) + Spelled(piece, b)
  {
    if |a| == 0 {
      assert a + b == b;
    } else {
      SpelledConcat(piece, a[1..], b);
      assert (a + b)[1..] == a[1..] + b;
    }
  }

  // The same, with what follows.
  function Written(piece: char -> string, s: string, tail: string): string {
    if |s| == 0 then tail else piece(s[0]) + Written(piece, s[1..], tail)
  }

  lemma {:induction false} SpelledIsWritten(piece: char -> string, s: string, tail: string)
    ensures Spelled(piece, s) + tail == Written(piece, s, tail)
  {
    if |s| == 0 {
      assert "" + tail == tail;
    } else {
      SpelledIsWritten(piece, s[1..], tail);
      Associated(piece(s[0]), Spelled(piece, s[1..]), tail);
    }
  }

  lemma Associated(a: string, b: string, c: string)
    ensures a + b + c == a + (b + c)
  {
  }

  lemma SpelledOne(piece: char -> string, c: char)
    ensures Spelled(piece, [c]) == piece(c)
  {
    assert [c][1..] == "";
    assert piece(c) + "" == piece(c);
  }

  // One more character in front of what a reader read, and what it left.
  function Prepended(c: char, r: Option<(string, string)>): Option<(string, string)> {
    if r.None? then None else Some(([c] + r.value.0, r.value.1))
  }
}
