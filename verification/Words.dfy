/** White space, trimming and word counts over text. */
module Words {
  // The code points with the Unicode White_Space property.
  predicate IsSpace(c: char) {
    var n := c as int;
    9 <= n <= 13 || n == 0x20 || n == 0x85 || n == 0xA0 || n == 0x1680 || 0x2000 <= n <= 0x200A ||
    n == 0x2028 || n == 0x2029 || n == 0x202F || n == 0x205F || n == 0x3000
  }

  // White space as Go's regular expressions have it.
  predicate PatternSpace(c: char) {
    c == ' ' || c == '\t' || c == '\n' || c == '\r' || c as int == 12
  }

  function SkipSpaces(s: string): (r: string)
    ensures |r| <= |s|
  {
    if |s| > 0 && PatternSpace(s[0]) then SkipSpaces(s[1..]) else s
  }

  predicate Blank(s: string) {
    forall i :: 0 <= i < |s| ==> IsSpace(s[i])
  }

  function TrimLeft(s: string): (r: string)
    ensures |r| <= |s|
  {
    if |s| == 0 || !IsSpace(s[0]) then s else TrimLeft(s[1..])
  }

  function TrimRight(s: string): (r: string)
    ensures |r| <= |s|
  {
    if |s| == 0 || !IsSpace(s[|s| - 1]) then s else TrimRight(s[..|s| - 1])
  }

  function Trim(s: string): string {
    TrimRight(TrimLeft(s))
  }

  /** The number of maximal runs of characters that are not white space. */
  function WordCount(s: string): nat {
    if |s| == 0 then 0 else
      WordCount(s[..|s| - 1]) +
      if !IsSpace(s[|s| - 1]) && (|s| == 1 || IsSpace(s[|s| - 2])) then 1 else 0
  }

  lemma {:induction false} BlankTrims(s: string)
    ensures Trim(s) == "" <==> Blank(s)
  {
    LeftKeepsBlank(s);
    RightKeepsBlank(TrimLeft(s));
  }

  lemma {:induction false} LeftKeepsBlank(s: string)
    ensures Blank(TrimLeft(s)) <==> Blank(s)
    ensures TrimLeft(s) == "" <==> Blank(s)
  {
    if |s| > 0 && IsSpace(s[0]) {
      LeftKeepsBlank(s[1..]);
      assert s == [s[0]] + s[1..];
    }
  }

  lemma {:induction false} RightKeepsBlank(s: string)
    ensures TrimRight(s) == "" <==> Blank(s)
  {
    if |s| > 0 && IsSpace(s[|s| - 1]) {
      RightKeepsBlank(s[..|s| - 1]);
      assert s == s[..|s| - 1] + [s[|s| - 1]];
    }
  }

  /** Trimming loses no word. */
  lemma TrimKeepsWords(s: string)
    ensures WordCount(Trim(s)) == WordCount(s)
  {
    LeftKeepsWords(s);
    RightKeepsWords(TrimLeft(s));
  }

  lemma {:induction false} RightKeepsWords(s: string)
    ensures WordCount(TrimRight(s)) == WordCount(s)
  {
    if |s| > 0 && IsSpace(s[|s| - 1]) {
      RightKeepsWords(s[..|s| - 1]);
    }
  }

  lemma {:induction false} LeftKeepsWords(s: string)
    ensures WordCount(TrimLeft(s)) == WordCount(s)
  {
    if |s| > 0 && IsSpace(s[0]) {
      LeadingSpace(s);
      LeftKeepsWords(s[1..]);
    }
  }

  lemma {:induction false} LeadingSpace(s: string)
    requires |s| > 0 && IsSpace(s[0])
    ensures WordCount(s[1..]) == WordCount(s)
  {
    var n := |s|;
    if n == 1 {
      assert s[..0] == "" == s[1..];
    } else {
      LeadingSpace(s[..n - 1]);
      assert s[..n - 1][1..] == s[1..][..n - 2];
    }
  }

  // ---- What the counts and the trimming mean ----

  predicate Solid(s: string) {
    forall i :: 0 <= i < |s| ==> !IsSpace(s[i])
  }

  /** A text of one or more characters without white space is one word. */
  lemma {:induction false} OneWord(s: string)
    requires s != "" && Solid(s)
    ensures WordCount(s) == 1
  {
    if |s| == 1 {
      assert s[..0] == "";
    } else {
      OneWord(s[..|s| - 1]);
    }
  }

  /** Words on the two sides of a white space are counted apart; no text, no word. */
  lemma {:induction false} WordsApart(a: string, c: char, b: string)
    requires IsSpace(c)
    ensures WordCount(a + [c] + b) == WordCount(a) + WordCount(b) && WordCount("") == 0
  {
    var s := a + [c] + b;
    if |b| == 0 {
      assert s[..|s| - 1] == a;
    } else {
      var front := b[..|b| - 1];
      WordsApart(a, c, front);
      assert s[..|s| - 1] == a + [c] + front;
    }
  }

  /** Trimming takes the white space off both ends and nothing else. */
  lemma TrimIsMiddle(s: string) returns (left: string, right: string)
    ensures s == left + Trim(s) + right && Blank(left) && Blank(right)
    ensures Trim(s) != "" ==> !IsSpace(Trim(s)[0]) && !IsSpace(Trim(s)[|Trim(s)| - 1])
  {
    left := LeftOff(s);
    right := RightOff(TrimLeft(s));
    assert s == left + (Trim(s) + right);
  }

  lemma {:induction false} LeftOff(s: string) returns (left: string)
    ensures s == left + TrimLeft(s) && Blank(left)
    ensures TrimLeft(s) != "" ==> !IsSpace(TrimLeft(s)[0])
  {
    if |s| == 0 || !IsSpace(s[0]) {
      left := "";
    } else {
      var rest := LeftOff(s[1..]);
      left := [s[0]] + rest;
    }
  }

  lemma {:induction false} RightOff(s: string) returns (right: string)
    ensures s == TrimRight(s) + right && Blank(right)
    ensures TrimRight(s) != "" ==> !IsSpace(TrimRight(s)[|TrimRight(s)| - 1]) && TrimRight(s)[0] == s[0]
  {
    if |s| == 0 || !IsSpace(s[|s| - 1]) {
      right := "";
    } else {
      var rest := RightOff(s[..|s| - 1]);
      right := rest + [s[|s| - 1]];
      assert s == s[..|s| - 1] + [s[|s| - 1]];
    }
  }
}
