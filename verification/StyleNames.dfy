/** Names of custom styles: markers stripped, and the Typst identifiers made from them. */
module StyleNames {
  import opened Options
  import opened Words

  // ---- Marker brackets ----

  function SkipRight(s: string): (r: string)
    ensures |r| <= |s|
  {
    if |s| > 0 && PatternSpace(s[|s| - 1]) then SkipRight(s[..|s| - 1]) else s
  }

  function Inside(s: string): (r: string)
    ensures |r| <= |s|
  {
    SkipRight(SkipSpaces(s))
  }

  predicate Wrapped(s: string, n: nat) {
    && |s| >= 2 * n
    && (forall i :: 0 <= i < n ==> s[i] == '[') && (forall i :: |s| - n <= i < |s| ==> s[i] == ']')
    && '\n' !in Inside(s[n..|s| - n])
  }

  // One pair of markers taken off; double brackets first.
  function Unwrap(s: string): (r: Option<string>)
    ensures r.Some? ==> |r.value| < |s|
  {
    if |s| >= 4 && Wrapped(s, 2) then
      TrimShortens(Inside(s[2..|s| - 2]));
      Some(Trim(Inside(s[2..|s| - 2])))
    else if |s| >= 2 && Wrapped(s, 1) then
      TrimShortens(Inside(s[1..|s| - 1]));
      Some(Trim(Inside(s[1..|s| - 1])))
    else None
  }

  function Unwrapped(s: string): string
    decreases |s|
  {
    var r := Unwrap(s);
    if r.None? then s else Unwrapped(r.value)
  }

  function Clean(s: string): string {
    Unwrapped(Trim(s))
  }

  method CleanStyleName(name: string) returns (s: string)
    ensures s == Clean(name)
  {
    s := Trim(name);
    while true
      invariant Unwrapped(s) == Clean(name)
      decreases |s|
    {
      var inner := Unwrap(s);
      if inner.None? {
        return;
      }
      s := inner.value;
    }
  }

  lemma TrimShortens(s: string)
    ensures |Trim(s)| <= |s|
  {
  }

  lemma {:induction false} RightEnds(s: string)
    ensures TrimRight(s) <= s
    ensures TrimRight(s) == "" || !IsSpace(TrimRight(s)[|TrimRight(s)| - 1])
  {
    if |s| > 0 && IsSpace(s[|s| - 1]) {
      RightEnds(s[..|s| - 1]);
    }
  }

  lemma {:induction false} LeftStarts(s: string)
    ensures TrimLeft(s) == "" || !IsSpace(TrimLeft(s)[0])
  {
    if |s| > 0 && IsSpace(s[0]) {
      LeftStarts(s[1..]);
    }
  }

  predicate Bare(s: string) {
    s == "" || (!IsSpace(s[0]) && !IsSpace(s[|s| - 1]))
  }

  lemma TrimIsBare(s: string)
    ensures Bare(Trim(s))
  {
    LeftStarts(s);
    RightEnds(TrimLeft(s));
  }

  lemma BareStays(s: string)
    requires Bare(s)
    ensures Trim(s) == s
  {
  }

  lemma TrimTwice(s: string)
    ensures Trim(Trim(s)) == Trim(s)
  {
    TrimIsBare(s);
    BareStays(Trim(s));
  }

  lemma {:induction false} UnwrappedIsBare(s: string)
    requires Bare(s)
    ensures Bare(Unwrapped(s)) && Unwrap(Unwrapped(s)).None?
    decreases |s|
  {
    var r := Unwrap(s);
    if r.Some? {
      if |s| >= 4 && Wrapped(s, 2) {
        TrimIsBare(Inside(s[2..|s| - 2]));
      } else {
        TrimIsBare(Inside(s[1..|s| - 1]));
      }
      UnwrappedIsBare(r.value);
    }
  }

  /** Cleaning reaches a fixpoint: no white space around it, no markers left, and nothing to clean again. */
  lemma CleanIsClean(s: string)
    ensures Bare(Clean(s)) && Unwrap(Clean(s)).None? && Clean(Clean(s)) == Clean(s)
  {
    TrimIsBare(s);
    UnwrappedIsBare(Trim(s));
    BareStays(Clean(s));
  }

  lemma CleanTrimmed(s: string)
    ensures Clean(Trim(s)) == Clean(s)
  {
    TrimTwice(s);
  }

  lemma {:induction false} InsideTrims(s: string)
    ensures Trim(SkipSpaces(s)) == Trim(s)
  {
    if |s| > 0 && PatternSpace(s[0]) {
      InsideTrims(s[1..]);
    }
  }

  lemma {:induction false} RightTrims(s: string)
    ensures TrimRight(SkipRight(s)) == TrimRight(s)
  {
    if |s| > 0 && PatternSpace(s[|s| - 1]) {
      RightTrims(s[..|s| - 1]);
    }
  }

  lemma {:induction false} LeftOfRight(s: string)
    requires !Blank(s) && IsSpace(s[|s| - 1])
    ensures TrimLeft(s) != "" && IsSpace(TrimLeft(s)[|TrimLeft(s)| - 1])
    ensures TrimLeft(s[..|s| - 1]) == TrimLeft(s)[..|TrimLeft(s)| - 1]
  {
    if IsSpace(s[0]) {
      assert s == [s[0]] + s[1..];
      LeftOfRight(s[1..]);
      assert s[1..][..|s[1..]| - 1] == s[..|s| - 1][1..];
    }
  }

  lemma {:induction false} SkipRightTrims(s: string)
    ensures Trim(SkipRight(s)) == Trim(s)
  {
    if |s| > 0 && PatternSpace(s[|s| - 1]) {
      var t := s[..|s| - 1];
      SkipRightTrims(t);
      if Blank(s) {
        BlankTrims(s);
        BlankTrims(t);
      } else {
        LeftOfRight(s);
      }
    }
  }

  lemma {:induction false} InsideKeeps(s: string)
    ensures forall c :: c in SkipSpaces(s) ==> c in s
  {
    if |s| > 0 && PatternSpace(s[0]) {
      InsideKeeps(s[1..]);
    }
  }

  lemma {:induction false} RightKeeps(s: string)
    ensures forall c :: c in SkipRight(s) ==> c in s
  {
    if |s| > 0 && PatternSpace(s[|s| - 1]) {
      RightKeeps(s[..|s| - 1]);
    }
  }

  /** A name typed with its manuscript markers is the name. */
  lemma MarkersDoNotCount(s: string)
    requires '\n' !in s
    ensures Clean("[[" + s + "]]") == Clean(s)
  {
    var t := "[[" + s + "]]";
    BareStays(t);
    assert t[2..|t| - 2] == s;
    InsideKeeps(s);
    RightKeeps(SkipSpaces(s));
    assert Wrapped(t, 2);
    InsideTrims(s);
    SkipRightTrims(SkipSpaces(s));
  }

  /** Nor does a single pair of brackets. */
  lemma {:induction false} BracketsDoNotCount(s: string)
    requires '\n' !in s
    ensures Clean("[" + s + "]") == Clean(s)
  {
    var t := "[" + s + "]";
    BareStays(t);
    assert t[1..|t| - 1] == s;
    if |t| >= 4 && Wrapped(t, 2) {
      var u := s[1..|s| - 1];
      assert t == "[[" + u + "]]" && s == "[" + u + "]";
      MarkersDoNotCount(u);
      BracketsDoNotCount(u);
    } else {
      InsideKeeps(s);
      RightKeeps(SkipSpaces(s));
      assert Wrapped(t, 1);
      InsideTrims(s);
      SkipRightTrims(SkipSpaces(s));
    }
  }

  /** A name with no white space around it and no bracket at one of its ends is left as it is. */
  lemma NamesStay(s: string)
    requires Bare(s) && |s| > 0 && (s[0] != '[' || s[|s| - 1] != ']')
    ensures Clean(s) == s
  {
    BareStays(s);
  }

  /** Brackets at both ends of a cleaned name stand around a line break. */
  lemma NoMarkersLeft(s: string)
    ensures var t := Clean(s);
      |t| >= 2 && t[0] == '[' && t[|t| - 1] == ']' ==> '\n' in t
  {
    CleanIsClean(s);
    var t := Clean(s);
    if |t| >= 2 && t[0] == '[' && t[|t| - 1] == ']' {
      assert !Wrapped(t, 1);
      InsideKeeps(t[1..|t| - 1]);
      RightKeeps(SkipSpaces(t[1..|t| - 1]));
    }
  }

  // ---- Identifiers ----

  // How letters are lowered, and the words a style may not be called by.
  datatype Spelling = Spelling(lower: char -> char, words: set<string>) {
    predicate Reserved(s: string) {
      s in words
    }

    // No reserved word looks like a made name.
    ghost predicate Free() {
      forall s: string :: s in words ==> !Made(s)
    }
  }

  // Made by adding a prefix, or the stand-in for an empty name.
  predicate Made(s: string) {
    s == "my-style" || (|s| > 1 && s[0] == 's' && s[1] == '-') || (|s| > 2 && s[0] == 'c' && s[1] == 's' && s[2] == '-')
  }

  predicate Alnum(c: char) {
    'a' <= c <= 'z' || '0' <= c <= '9'
  }

  function Letters(s: string): string {
    if |s| == 0 then "" else Letters(s[..|s| - 1]) + if Alnum(s[|s| - 1]) then [s[|s| - 1]] else ""
  }

  // Letters and digits kept, every run of anything else after one of them a hyphen.
  function Hyphenated(s: string): string {
    if |s| == 0 then "" else
      var b, c := Hyphenated(s[..|s| - 1]), s[|s| - 1];
      if Alnum(c) then b + [c] else if b != "" && b[|b| - 1] != '-' then b + "-" else b
  }

  function DropHyphens(s: string): string {
    if |s| > 0 && s[|s| - 1] == '-' then DropHyphens(s[..|s| - 1]) else s
  }

  function Lowered(lower: char -> char, s: string): string {
    seq(|s|, i requires 0 <= i < |s| => lower(s[i]))
  }

  // The name's letters and digits, before it is kept off the digits and the reserved words.
  function Core(sp: Spelling, name: string): string {
    DropHyphens(Hyphenated(Lowered(sp.lower, Trim(name))))
  }

  predicate StartsWithDigit(s: string) {
    |s| > 0 && '0' <= s[0] <= '9'
  }

  // A core kept off the digits and the reserved words.
  function Called(sp: Spelling, core: string): string {
    if core == "" then "my-style"
    else
      var led := if StartsWithDigit(core) then "s-" + core else core;
      if sp.Reserved(led) then "cs-" + led else led
  }

  function Ident(sp: Spelling, name: string): string {
    Called(sp, Core(sp, name))
  }

  method TypstStyleIdent(sp: Spelling, name: string) returns (out: string)
    ensures out == Ident(sp, name)
  {
    var text := Lowered(sp.lower, Trim(name));
    var b, dash := "", false;
    for i := 0 to |text|
      invariant b == Hyphenated(text[..i])
      invariant dash <==> b != "" && b[|b| - 1] == '-'
    {
      assert text[..i + 1][..i] == text[..i];
      var r := text[i];
      if Alnum(r) {
        b := b + [r];
        dash := false;
      } else if !dash && |b| > 0 {
        b := b + "-";
        dash := true;
      }
    }
    assert text[..|text|] == text;
    out := DropHyphens(b);
    if out == "" {
      return "my-style";
    }
    if StartsWithDigit(out) {
      out := "s-" + out;
    }
    if sp.Reserved(out) {
      out := "cs-" + out;
    }
  }

  // Letters, digits and single inner hyphens.
  predicate Slug(s: string) {
    && |s| > 0 && Alnum(s[0]) && Alnum(s[|s| - 1])
    && (forall i :: 0 <= i < |s| ==> Alnum(s[i]) || s[i] == '-')
    && (forall i :: 0 < i < |s| ==> !(s[i - 1] == '-' && s[i] == '-'))
  }

  predicate WellFormed(sp: Spelling, s: string) {
    Slug(s) && 'a' <= s[0] <= 'z' && !sp.Reserved(s)
  }

  // A slug, perhaps with one hyphen after it.
  predicate AlmostSlug(s: string) {
    s == "" || Slug(s) || (s[|s| - 1] == '-' && Slug(s[..|s| - 1]))
  }

  lemma SlugGrows(s: string, c: char)
    requires Slug(s)
    ensures Alnum(c) ==> Slug(s + [c]) && Slug(s + "-" + [c])
  {
  }

  lemma {:induction false} HyphenatedIsSlug(s: string)
    ensures AlmostSlug(Hyphenated(s)) && Letters(Hyphenated(s)) == Letters(s)
  {
    if |s| > 0 {
      var b, c := Hyphenated(s[..|s| - 1]), s[|s| - 1];
      HyphenatedIsSlug(s[..|s| - 1]);
      assert (b + [c])[..|b|] == b && (b + "-")[..|b|] == b;
      if b != "" && Slug(b) {
        SlugGrows(b, c);
      } else if b != "" {
        SlugGrows(b[..|b| - 1], c);
        assert b == b[..|b| - 1] + "-";
      }
    }
  }

  lemma DropOne(s: string)
    requires AlmostSlug(s)
    ensures DropHyphens(s) == "" || Slug(DropHyphens(s))
    ensures Letters(DropHyphens(s)) == Letters(s)
  {
  }

  /** The core keeps every letter and digit of the name, in order, and joins them by single hyphens. */
  lemma CoreIsSlug(sp: Spelling, name: string)
    ensures Core(sp, name) == "" || Slug(Core(sp, name))
    ensures Letters(Core(sp, name)) == Letters(Lowered(sp.lower, Trim(name)))
  {
    HyphenatedIsSlug(Lowered(sp.lower, Trim(name)));
    DropOne(Hyphenated(Lowered(sp.lower, Trim(name))));
  }

  lemma Prefixed(s: string)
    requires Slug(s)
    ensures Slug("s-" + s) && Slug("cs-" + s)
  {
  }

  /** Every identifier is a lower-case word that Typst and the template leave free. */
  lemma IdentIsWellFormed(sp: Spelling, name: string)
    requires sp.Free()
    ensures WellFormed(sp, Ident(sp, name))
  {
    CoreIsSlug(sp, name);
    var out := Core(sp, name);
    if out != "" {
      var led := if StartsWithDigit(out) then "s-" + out else out;
      Prefixed(out);
      Prefixed(led);
    }
  }

  predicate PlainLower(sp: Spelling) {
    forall c: char :: Alnum(c) || c == '-' ==> sp.lower(c) == c
  }

  lemma {:induction false} SlugStays(s: string)
    requires s == "" || Slug(s) || (s[|s| - 1] == '-' && Slug(s[..|s| - 1]))
    ensures Hyphenated(s) == s
  {
    if |s| > 0 {
      var t := s[..|s| - 1];
      if Alnum(s[|s| - 1]) && |s| > 1 {
        if !Alnum(s[|s| - 2]) {
          assert t[|t| - 1] == '-' && Slug(t[..|t| - 1]);
        } else {
          assert Slug(t);
        }
      }
      SlugStays(t);
    }
  }

  /** Making an identifier of an identifier changes nothing. */
  lemma IdentIsFixed(sp: Spelling, name: string)
    requires PlainLower(sp) && sp.Free()
    ensures Ident(sp, Ident(sp, name)) == Ident(sp, name)
  {
    var id := Ident(sp, name);
    IdentIsWellFormed(sp, name);
    SlugIsTrimmed(id);
    assert Lowered(sp.lower, id) == id;
    SlugStays(id);
  }

  lemma SlugIsTrimmed(s: string)
    requires Slug(s)
    ensures Trim(s) == s
  {
    BareStays(s);
  }

  // What a core is turned into when it cannot stand as it is: empty, led by a digit, or reserved.
  predicate TurnedInto(sp: Spelling, c: string, d: string) {
    || (c == "" && d == "my-style")
    || (StartsWithDigit(c) && d == "s-" + c)
    || (c != "" && !StartsWithDigit(c) && sp.Reserved(c) && d == "cs-" + c)
  }

  predicate Stands(sp: Spelling, c: string) {
    c != "" && !StartsWithDigit(c) && !sp.Reserved(c)
  }

  lemma StandsOrTurns(sp: Spelling, c: string)
    requires sp.Free()
    ensures if Stands(sp, c) then Called(sp, c) == c
            else TurnedInto(sp, c, Called(sp, c)) && Made(Called(sp, c)) && Stands(sp, Called(sp, c))
    ensures forall d :: TurnedInto(sp, c, d) ==> d == Called(sp, c)
  {
    if StartsWithDigit(c) {
      assert Made("s-" + c);
    } else if sp.Reserved(c) {
      assert Made("cs-" + c);
    }
  }

  lemma TurnedLeads(sp: Spelling, c: string, x: string)
    requires TurnedInto(sp, c, x)
    ensures |x| >= 3
    ensures x[0] == if c == "" then 'm' else if StartsWithDigit(c) then 's' else 'c'
    ensures c != "" ==> c == if x[0] == 's' then x[2..] else x[3..]
  {
    if c == "" {
      assert x == "my-style";
    } else if StartsWithDigit(c) {
      assert x == "s-" + c;
    } else {
      assert x == "cs-" + c;
    }
  }

  lemma TurnsApart(sp: Spelling, c: string, d: string, x: string)
    requires TurnedInto(sp, c, x) && TurnedInto(sp, d, x)
    ensures c == d
  {
    TurnedLeads(sp, c, x);
    TurnedLeads(sp, d, x);
  }

  lemma CalledAlike(sp: Spelling, c: string, d: string)
    requires sp.Free()
    ensures Called(sp, c) == Called(sp, d) <==> c == d || TurnedInto(sp, c, d) || TurnedInto(sp, d, c)
  {
    StandsOrTurns(sp, c);
    StandsOrTurns(sp, d);
    if !Stands(sp, c) && !Stands(sp, d) && Called(sp, c) == Called(sp, d) {
      TurnsApart(sp, c, d, Called(sp, c));
    }
  }

  /**
   * Two styles share an identifier exactly when their names have the same core, or the core of
   * one is what the core of the other is turned into.
   */
  lemma IdentsCollide(sp: Spelling, a: string, b: string)
    requires sp.Free()
    ensures Ident(sp, a) == Ident(sp, b) <==>
            var c, d := Core(sp, a), Core(sp, b);
            c == d || TurnedInto(sp, c, d) || TurnedInto(sp, d, c)
  {
    CalledAlike(sp, Core(sp, a), Core(sp, b));
  }

  /** Names that differ only in a space for a hyphen share their identifier. */
  lemma SpacedNamesCollide(sp: Spelling, a: string, b: string)
    requires PlainLower(sp) && sp.lower(' ') == ' ' && |a| > 0 && |b| > 0
    requires (forall i :: 0 <= i < |a| ==> Alnum(a[i])) && (forall i :: 0 <= i < |b| ==> Alnum(b[i]))
    ensures Core(sp, a + " " + b) == a + "-" + b
    ensures Ident(sp, a + " " + b) == Ident(sp, a + "-" + b)
  {
    JoinedSlug(a, b);
    HyphenatedSpace(a, b);
    SlugStays(a + "-" + b);
    PlainNames(sp, a, b, ' ');
    PlainNames(sp, a, b, '-');
    PlainCore(sp, a + " " + b);
    PlainCore(sp, a + "-" + b);
  }

  lemma PlainNames(sp: Spelling, a: string, b: string, c: char)
    requires PlainLower(sp) && sp.lower(c) == c && |a| > 0 && |b| > 0
    requires (forall i :: 0 <= i < |a| ==> Alnum(a[i])) && (forall i :: 0 <= i < |b| ==> Alnum(b[i]))
    ensures var s := a + [c] + b;
      Alnum(s[0]) && Alnum(s[|s| - 1]) && forall i :: 0 <= i < |s| ==> sp.lower(s[i]) == s[i]
  {
    var s := a + [c] + b;
    forall i | 0 <= i < |s| ensures sp.lower(s[i]) == s[i] {
      assert s[i] == if i < |a| then a[i] else if i == |a| then c else b[i - |a| - 1];
    }
  }

  lemma JoinedSlug(a: string, b: string)
    requires |a| > 0 && |b| > 0
    requires (forall i :: 0 <= i < |a| ==> Alnum(a[i])) && (forall i :: 0 <= i < |b| ==> Alnum(b[i]))
    ensures Slug(a) && Slug(a + "-" + b)
  {
  }

  lemma PlainCore(sp: Spelling, s: string)
    requires |s| > 0 && Alnum(s[0]) && Alnum(s[|s| - 1])
    requires forall i :: 0 <= i < |s| ==> sp.lower(s[i]) == s[i]
    ensures Core(sp, s) == DropHyphens(Hyphenated(s))
  {
    AlnumIsBare(s);
    BareStays(s);
    LoweredStays(sp.lower, s);
  }

  lemma AlnumIsBare(s: string)
    requires |s| > 0 && Alnum(s[0]) && Alnum(s[|s| - 1])
    ensures Bare(s)
  {
  }

  lemma LoweredStays(lower: char -> char, s: string)
    requires forall i :: 0 <= i < |s| ==> lower(s[i]) == s[i]
    ensures Lowered(lower, s) == s
  {
  }

  lemma {:induction false} HyphenatedSpace(a: string, b: string)
    requires Slug(a) && forall i :: 0 <= i < |b| ==> Alnum(b[i])
    ensures Hyphenated(a + " " + b) == a + "-" + b
  {
    var s := a + " " + b;
    if |b| == 0 {
      assert s[..|s| - 1] == a;
      SlugStays(a);
    } else {
      HyphenatedSpace(a, b[..|b| - 1]);
      assert s[..|s| - 1] == a + " " + b[..|b| - 1];
      assert b == b[..|b| - 1] + [b[|b| - 1]];
    }
  }

  // ---- The reserved words of the pipeline ----

  function ReservedWords(): set<string> {
    WordsA() + WordsB() + WordsC() + WordsDE() + WordsF() + WordsGH() + WordsIK() + WordsL() + WordsMO() + WordsP() +
    WordsQR() + WordsS() + WordsTZ()
  }

  function WordsA(): set<string> {
    {
      "abstract", "acronym", "align", "allcaps", "and", "angle", "arguments", "array", "articletitle", "as",
      "assert", "at", "author", "auto"
    }
  }

  lemma FreeA()
    ensures forall s: string :: s in WordsA() ==> !Made(s)
  {
  }

  function WordsB(): set<string> {
    {
      "bibliography", "blank-page", "blank-pages", "block", "blockquote", "body", "body-para", "body-start-page",
      "bold", "bold-ital", "book", "book-info", "book-page", "booktitle", "bool", "bordered-image", "bottom", "box",
      "break", "break-from", "break-to-recto", "bytes"
    }
  }

  lemma FreeB()
    ensures forall s: string :: s in WordsB() ==> !Made(s)
  {
  }

  function WordsC(): set<string> {
    {
      "calc", "cbor", "center", "chapter", "chapter-body-start", "chapter-opener", "chapter-opener-image", "circle",
      "cite", "cmyk", "code-block", "colbreak", "color", "columns", "config", "content", "contents-page", "context",
      "continue", "copyright-page", "copyright-page-generated", "counter", "csv", "current-story-author",
      "current-story-title"
    }
  }

  lemma FreeC()
    ensures forall s: string :: s in WordsC() ==> !Made(s)
  {
  }

  function WordsDE(): set<string> {
    {
      "date", "datetime", "default", "default-config", "dictionary", "dir", "document", "drop-cap",
      "drop-folio-footer", "drop-folio-pages", "duration", "ellipse", "ellipsis", "else", "emph", "end", "enum",
      "epigraph", "eval"
    }
  }

  lemma FreeDE()
    ensures forall s: string :: s in WordsDE() ==> !Made(s)
  {
  }

  function WordsF(): set<string> {
    {
      "false", "figure", "figure-inline", "figure-side", "fill", "first", "first-line-indent", "first-para",
      "float", "fm-get", "folio-text", "font", "footnote", "for", "foreign", "fraction", "front-piece",
      "front-section", "frontispiece", "full-bleed-image", "full-page-image", "function"
    }
  }

  lemma FreeF()
    ensures forall s: string :: s in WordsF() ==> !Made(s)
  {
  }

  function WordsGH(): set<string> {
    {
      "generated-end-page", "generated-front-matter", "glossary-entry", "gradient", "grid", "h", "half-title",
      "heading", "height", "hide", "highlight", "horizon", "hyphenate"
    }
  }

  lemma FreeGH()
    ensures forall s: string :: s in WordsGH() ==> !Made(s)
  {
  }

  function WordsIK(): set<string> {
    {
      "icon", "if", "image", "image-config", "image-grid", "import", "in", "include", "indent", "index",
      "index-breakable", "index-collect", "index-entry", "index-letter", "index-locators", "index-page",
      "index-sort-key", "index-text", "inset", "int", "ital", "json", "justify", "kerning", "keywords"
    }
  }

  lemma FreeIK()
    ensures forall s: string :: s in WordsIK() ==> !Made(s)
  {
  }

  function WordsL(): set<string> {
    {
      "label", "lang", "last", "layout", "leading", "left", "length", "let", "ligatures", "line", "linebreak",
      "lining", "link", "list", "locate", "lower", "ltr", "luma"
    }
  }

  lemma FreeL()
    ensures forall s: string :: s in WordsL() ==> !Made(s)
  {
  }

  function WordsMO(): set<string> {
    {
      "mark-page", "math", "measure", "merge-config", "metadata", "module", "mono", "move", "name", "named",
      "no-header", "none", "not", "numbering", "oldstyle", "or", "ornament", "outline", "outset", "overline"
    }
  }

  lemma FreeMO()
    ensures forall s: string :: s in WordsMO() ==> !Made(s)
  {
  }

  function WordsP(): set<string> {
    {
      "page", "page-background", "page-carries-folio", "page-in-front-matter", "pagebreak", "panic", "par",
      "parbreak", "parts-state", "path", "pattern", "place", "plain", "plugin", "poem", "polygon", "portrait",
      "pos", "proof-line", "proof-stamp", "pullquote"
    }
  }

  lemma FreeP()
    ensures forall s: string :: s in WordsP() ==> !Made(s)
  {
  }

  function WordsQR(): set<string> {
    {
      "query", "quote", "radius", "range", "ratio", "raw", "read", "rect", "ref", "regex", "region", "relative",
      "repr", "rest", "return", "rgb", "right", "rotate", "rtl", "running-header"
    }
  }

  lemma FreeQR()
    ensures forall s: string :: s in WordsQR() ==> !Made(s)
  {
  }

  function WordsS(): set<string> {
    {
      "sans", "sc", "scale", "section-break", "section-break-gap", "section-break-stars", "selector", "set",
      "set-story-info", "show", "signature", "size", "slant", "smallcaps", "spaced-ellipsis", "spacing", "square",
      "stack", "stacked-author", "stacked-title", "start", "start-back", "start-body", "state", "str", "strike",
      "stroke", "strong", "style", "sub", "super", "suppress-header-pages", "symbol", "sys"
    }
  }

  lemma FreeS()
    ensures forall s: string :: s in WordsS() ==> !Made(s)
  {
  }

  function WordsTZ(): set<string> {
    {
      "table", "terms", "text", "tiling", "title", "title-page", "title-page-full", "toc-entry", "toc-heading",
      "toml", "top", "tracked", "tracking", "true", "type", "uline", "underline", "upper", "v", "version", "weight",
      "while", "width", "wrap-image", "xml", "yaml"
    }
  }

  lemma FreeTZ()
    ensures forall s: string :: s in WordsTZ() ==> !Made(s)
  {
  }

  /** The words set aside for Typst and the template leave every made name free. */
  lemma PipelineWordsAreFree(lower: char -> char)
    ensures Spelling(lower, ReservedWords()).Free()
  {
    FreeA(); FreeB(); FreeC(); FreeDE(); FreeF(); FreeGH(); FreeIK(); FreeL();
    FreeMO(); FreeP(); FreeQR(); FreeS(); FreeTZ();
  }
}
