/** Chapters and their bylines, suggested from a pandoc document tree. */
module Bylines {
  import opened Folds
  import opened Options
  import opened Words

  // Inlines by what the walk makes of them: Wrap stands for the styled and wrapping kinds but Emph.
  datatype Inline =
    | Str(text: string)
    | Space
    | SoftBreak
    | LineBreak
    | Emph(kids: seq<Inline>)
    | Wrap(kids: seq<Inline>)
    | Code(text: string)
    | Unread

  datatype Block =
    | Header(level: int, title: seq<Inline>)
    | Para(inlines: seq<Inline>)
    | Div(style: string, inner: seq<Block>)
    | Apart

  datatype Candidate = Candidate(style: string, inlines: seq<Inline>)
  datatype Chapter = Chapter(title: string, author: string)

  // Which characters are capitals, and which paragraph styles name an author.
  datatype Rules = Rules(capital: char -> bool, authorStyle: string -> bool)

  const WINDOW := 3
  const MAX_BYTES := 60

  // ---- Text ----

  function InlinesText(xs: seq<Inline>): string {
    if |xs| == 0 then "" else InlineText(xs[0]) + InlinesText(xs[1..])
  }

  function InlineText(x: Inline): string {
    match x
    case Str(text) => text
    case Space => " "
    case SoftBreak => " "
    case LineBreak => " "
    case Emph(kids) => InlinesText(kids)
    case Wrap(kids) => InlinesText(kids)
    case Code(text) => text
    case Unread => ""
  }

  /** The text of inlines is the texts of its parts one after the other, a space for each space or
      break, and styling makes no difference. */
  lemma {:induction false} TextIsOfParts(a: seq<Inline>, b: seq<Inline>)
    ensures InlinesText(a + b) == InlinesText(a) + InlinesText(b)
    ensures |a| == 1 && (a[0].Str? || a[0].Code?) ==> InlinesText(a) == a[0].text
    ensures |a| == 1 && (a[0].Emph? || a[0].Wrap?) ==> InlinesText(a) == InlinesText(a[0].kids)
    ensures |a| == 1 && (a[0].Space? || a[0].SoftBreak? || a[0].LineBreak?) ==> InlinesText(a) == " "
    ensures |a| == 1 && a[0].Unread? ==> InlinesText(a) == ""
  {
    if |a| == 0 {
      assert a + b == b;
    } else {
      TextIsOfParts(a[1..], b);
      assert (a + b)[1..] == a[1..] + b;
      Regrouped(InlineText(a[0]), InlinesText(a[1..]), InlinesText(b));
    }
  }

  lemma Regrouped(a: string, b: string, c: string)
    ensures a + (b + c) == a + b + c
  {
  }

  predicate HasLineBreak(xs: seq<Inline>) {
    |xs| > 0 &&
    ((match xs[0]
      case SoftBreak => true
      case LineBreak => true
      case Emph(kids) => HasLineBreak(kids)
      case Wrap(kids) => HasLineBreak(kids)
      case _ => false)
     || HasLineBreak(xs[1..]))
  }

  // The length in bytes of the UTF-8 form.
  function Bytes(s: string): nat {
    if |s| == 0 then 0 else
      var n := s[|s| - 1] as int;
      Bytes(s[..|s| - 1]) + if n < 0x80 then 1 else if n < 0x800 then 2 else if n < 0x10000 then 3 else 4
  }

  predicate BylineSized(t: string) {
    t != "" && Bytes(t) <= MAX_BYTES && '\U{2014}' !in t && '\U{2013}' !in t
  }

  // ---- What a candidate offers ----

  // The name in "By Name", the name starting with a capital.
  function NameAfterBy(rules: Rules, t: string): Option<string> {
    if |t| < 3 || !(t[0] == 'B' || t[0] == 'b') || t[1] != 'y' || !PatternSpace(t[2]) then None else
      var name := SkipSpaces(t[2..]);
      if |name| > 0 && rules.capital(name[0]) && '\n' !in name then Some(Trim(name)) else None
  }

  function BylineFromBy(rules: Rules, text: string): Option<string> {
    var t := Trim(text);
    if BylineSized(t) then NameAfterBy(rules, t) else None
  }

  predicate AllItalic(xs: seq<Inline>) {
    && (forall i :: 0 <= i < |xs| ==> xs[i].Emph? || xs[i].Space? || xs[i].SoftBreak? || xs[i].LineBreak?)
    && (exists i :: 0 <= i < |xs| && xs[i].Emph?)
  }

  function ItalicByline(xs: seq<Inline>): Option<string> {
    var t := Trim(InlinesText(xs));
    if AllItalic(xs) && !HasLineBreak(xs) && BylineSized(t) then Some(t) else None
  }

  // What a candidate offers in each class: author style, "By Name", italics.
  function Offer(rules: Rules, c: Candidate, trust: nat): Option<string> {
    var t := Trim(InlinesText(c.inlines));
    if trust == 0 then
      if !rules.authorStyle(c.style) || t == "" then None
      else if BylineFromBy(rules, t).Some? then BylineFromBy(rules, t)
      else Some(t)
    else if trust == 1 then BylineFromBy(rules, t)
    else ItalicByline(c.inlines)
  }

  predicate Offers(rules: Rules, cs: seq<Candidate>, trust: nat, i: nat) {
    i < |cs| && Offer(rules, cs[i], trust).Some?
  }

  // Candidate i makes the first offer of its class, and no class before that has one.
  ghost predicate Best(rules: Rules, cs: seq<Candidate>, trust: nat, i: nat) {
    && trust < 3 && Offers(rules, cs, trust, i)
    && (forall j :: 0 <= j < i ==> !Offers(rules, cs, trust, j))
    && (forall l: nat, j: nat :: l < trust ==> !Offers(rules, cs, l, j))
  }

  // The first offer of the most trusted class that has one.
  ghost predicate Chosen(rules: Rules, cs: seq<Candidate>, name: string) {
    && (forall k: nat, i: nat :: Best(rules, cs, k, i) ==> Some(name) == Offer(rules, cs[i], k))
    && ((forall k: nat, i: nat :: !Best(rules, cs, k, i)) ==> name == "")
  }

  lemma FirstIsBest(rules: Rules, cs: seq<Candidate>, i: nat)
    ensures First(rules, Styled, cs, i) ==> Best(rules, cs, 0, i)
    ensures Nowhere(rules, Styled, cs) && First(rules, Introduced, cs, i) ==> Best(rules, cs, 1, i)
    ensures Nowhere(rules, Styled, cs) && Nowhere(rules, Introduced, cs) && First(rules, Italic, cs, i) ==>
            Best(rules, cs, 2, i)
  {
    AllOffersAre(rules, cs);
  }

  /** The choice by classes of offers is the choice by confidence. */
  lemma ChosenByConfidence(rules: Rules, cs: seq<Candidate>, name: string)
    requires Chosen(rules, cs, name)
    ensures ByConfidence(rules, cs, name)
  {
    AllOffersAre(rules, cs);
    forall i | First(rules, Styled, cs, i)
      ensures if HasBy(rules, cs[i]) then ReadsBy(rules, cs[i], name) else name == TextOf(cs[i])
    {
      FirstIsBest(rules, cs, i);
      OffersAre(rules, cs[i]);
    }
    if Nowhere(rules, Styled, cs) {
      forall i | First(rules, Introduced, cs, i) ensures ReadsBy(rules, cs[i], name) {
        FirstIsBest(rules, cs, i);
        OffersAre(rules, cs[i]);
      }
      if Nowhere(rules, Introduced, cs) {
        forall i | First(rules, Italic, cs, i) ensures name == TextOf(cs[i]) {
          FirstIsBest(rules, cs, i);
          OffersAre(rules, cs[i]);
        }
        if Nowhere(rules, Italic, cs) {
          assert forall k: nat, i: nat :: !Best(rules, cs, k, i);
        }
      }
    }
  }

  /** There is no author exactly when no candidate shows any of the three signs. */
  lemma NoAuthorMeansNoSign(rules: Rules, cs: seq<Candidate>, name: string)
    requires Chosen(rules, cs, name)
    requires forall c: char :: rules.capital(c) ==> !IsSpace(c)
    ensures name == "" <==>
            Nowhere(rules, Styled, cs) && Nowhere(rules, Introduced, cs) && Nowhere(rules, Italic, cs)
  {
    AllOffersAre(rules, cs);
    NoAuthorMeansNoOffer(rules, cs, name);
    if k: nat, i: nat :| k < 3 && Offers(rules, cs, k, i) {
      assert k == 0 || k == 1 || k == 2;
    }
  }

  lemma BestIsUnique(rules: Rules, cs: seq<Candidate>, k: nat, i: nat, l: nat, j: nat)
    requires Best(rules, cs, k, i) && Best(rules, cs, l, j)
    ensures k == l && i == j
  {
    assert Offers(rules, cs, k, i) && Offers(rules, cs, l, j);
  }

  // ---- The order of confidence ----

  function TextOf(c: Candidate): string {
    Trim(InlinesText(c.inlines))
  }

  // Short enough for a name, and no dash in it.
  predicate Short(t: string) {
    t != "" && Bytes(t) <= 60 && '\U{2014}' !in t && '\U{2013}' !in t
  }

  predicate InAuthorStyle(rules: Rules, c: Candidate) {
    rules.authorStyle(c.style) && TextOf(c) != ""
  }

  // "By" and, after white space from place 2 to k, a name on one line that starts with a capital.
  predicate ByUpTo(rules: Rules, t: string, k: nat) {
    && 2 < k < |t| && (t[0] == 'B' || t[0] == 'b') && t[1] == 'y'
    && (forall i :: 2 <= i < k ==> PatternSpace(t[i])) && !PatternSpace(t[k])
    && rules.capital(t[k]) && '\n' !in t[k..]
  }

  predicate ReadsBy(rules: Rules, c: Candidate, name: string) {
    Short(TextOf(c)) && exists k :: 0 <= k < |TextOf(c)| && ByUpTo(rules, TextOf(c), k) && name == Trim(TextOf(c)[k..])
  }

  predicate HasBy(rules: Rules, c: Candidate) {
    Short(TextOf(c)) && exists k :: 0 <= k < |TextOf(c)| && ByUpTo(rules, TextOf(c), k)
  }

  // A short line in italics and white space, with no break in it.
  predicate ShortItalic(c: Candidate) {
    && (forall i :: 0 <= i < |c.inlines| ==>
          c.inlines[i].Emph? || c.inlines[i].Space? || c.inlines[i].SoftBreak? || c.inlines[i].LineBreak?)
    && (exists i :: 0 <= i < |c.inlines| && c.inlines[i].Emph?)
    && !HasLineBreak(c.inlines) && Short(TextOf(c))
  }

  datatype Sign = Styled | Introduced | Italic

  predicate Shows(rules: Rules, sign: Sign, c: Candidate) {
    match sign
    case Styled => InAuthorStyle(rules, c)
    case Introduced => HasBy(rules, c)
    case Italic => ShortItalic(c)
  }

  predicate First(rules: Rules, sign: Sign, cs: seq<Candidate>, i: int) {
    0 <= i < |cs| && Shows(rules, sign, cs[i]) && forall j :: 0 <= j < i ==> !Shows(rules, sign, cs[j])
  }

  predicate Nowhere(rules: Rules, sign: Sign, cs: seq<Candidate>) {
    forall i :: 0 <= i < |cs| ==> !Shows(rules, sign, cs[i])
  }

  /** The name comes from the first candidate in an author style, "by" before it or not; else it is the
      first one introduced by "by"; else the first short line in italics; else there is none. */
  ghost predicate ByConfidence(rules: Rules, cs: seq<Candidate>, name: string) {
    && (forall i :: First(rules, Styled, cs, i) ==>
          if HasBy(rules, cs[i]) then ReadsBy(rules, cs[i], name) else name == TextOf(cs[i]))
    && (Nowhere(rules, Styled, cs) ==>
          forall i :: First(rules, Introduced, cs, i) ==> ReadsBy(rules, cs[i], name))
    && (Nowhere(rules, Styled, cs) && Nowhere(rules, Introduced, cs) ==>
          forall i :: First(rules, Italic, cs, i) ==> name == TextOf(cs[i]))
    && (Nowhere(rules, Styled, cs) && Nowhere(rules, Introduced, cs) && Nowhere(rules, Italic, cs) ==> name == "")
  }

  lemma {:induction false} SpacesSkipped(s: string)
    ensures var k := |s| - |SkipSpaces(s)|;
      SkipSpaces(s) == s[k..] && (forall i :: 0 <= i < k ==> PatternSpace(s[i]))
      && (k < |s| ==> !PatternSpace(s[k]))
  {
    if |s| > 0 && PatternSpace(s[0]) {
      SpacesSkipped(s[1..]);
      var k := |s| - |SkipSpaces(s)|;
      assert s[1..][k - 1..] == s[k..];
      assert forall i :: 0 < i < k ==> s[i] == s[1..][i - 1];
      assert k < |s| ==> s[1..][k - 1] == s[k];
    }
  }

  // The one place where the name can start.
  lemma NameStarts(rules: Rules, t: string)
    ensures NameAfterBy(rules, t).Some? ==>
      var k := |t| - |SkipSpaces(t[2..])|; ByUpTo(rules, t, k) && NameAfterBy(rules, t) == Some(Trim(t[k..]))
    ensures forall k: nat :: ByUpTo(rules, t, k) ==> NameAfterBy(rules, t) == Some(Trim(t[k..]))
  {
    if |t| >= 3 {
      SpacesSkipped(t[2..]);
      var k := |t| - |SkipSpaces(t[2..])|;
      assert t[2..][k - 2..] == t[k..];
      assert forall i :: 2 <= i < |t| ==> t[i] == t[2..][i - 2];
      assert forall i :: 2 <= i < k ==> PatternSpace(t[i]);
      forall j: nat | ByUpTo(rules, t, j) ensures j == k {
      }
    }
  }

  lemma ByIsRead(rules: Rules, c: Candidate)
    ensures BylineFromBy(rules, TextOf(c)).Some? <==> HasBy(rules, c)
    ensures forall name :: BylineFromBy(rules, TextOf(c)) == Some(name) <==> ReadsBy(rules, c, name)
  {
    var t := TextOf(c);
    TrimAgain(InlinesText(c.inlines));
    NameStarts(rules, t);
  }

  lemma TrimAgain(s: string)
    ensures Trim(Trim(s)) == Trim(s)
  {
    var left, right := TrimIsMiddle(s);
    var t := Trim(s);
    assert TrimLeft(t) == t && TrimRight(t) == t;
  }

  lemma OffersAre(rules: Rules, c: Candidate)
    ensures Offer(rules, c, 0).Some? <==> InAuthorStyle(rules, c)
    ensures Offer(rules, c, 1).Some? <==> HasBy(rules, c)
    ensures Offer(rules, c, 2).Some? <==> ShortItalic(c)
    ensures forall name :: Offer(rules, c, 0) == Some(name) ==>
      if HasBy(rules, c) then ReadsBy(rules, c, name) else name == TextOf(c)
    ensures forall name :: Offer(rules, c, 1) == Some(name) ==> ReadsBy(rules, c, name)
    ensures Offer(rules, c, 2).Some? ==> Offer(rules, c, 2) == Some(TextOf(c))
  {
    ByIsRead(rules, c);
  }

  lemma AllOffersAre(rules: Rules, cs: seq<Candidate>)
    ensures forall i: nat :: i < |cs| ==>
      && (Offers(rules, cs, 0, i) <==> InAuthorStyle(rules, cs[i]))
      && (Offers(rules, cs, 1, i) <==> HasBy(rules, cs[i]))
      && (Offers(rules, cs, 2, i) <==> ShortItalic(cs[i]))
  {
    forall i: nat | i < |cs|
      ensures Offers(rules, cs, 0, i) <==> InAuthorStyle(rules, cs[i])
      ensures Offers(rules, cs, 1, i) <==> HasBy(rules, cs[i])
      ensures Offers(rules, cs, 2, i) <==> ShortItalic(cs[i])
    {
      OffersAre(rules, cs[i]);
    }
  }

  // ---- The walk ----

  // The paragraphs of a block with the styles of the Divs around them, innermost last.
  function Paragraphs(b: Block, around: seq<string>): seq<(seq<string>, seq<Inline>)> {
    match b
    case Para(inlines) => [(around, inlines)]
    case Div(style, inner) => AllParagraphs(inner, around + [style])
    case _ => []
  }

  function AllParagraphs(bs: seq<Block>, around: seq<string>): seq<(seq<string>, seq<Inline>)> {
    if |bs| == 0 then [] else Paragraphs(bs[0], around) + AllParagraphs(bs[1..], around)
  }

  // The nearest style that is given.
  function Nearest(around: seq<string>): string {
    if |around| == 0 then ""
    else if around[|around| - 1] != "" then around[|around| - 1]
    else Nearest(around[..|around| - 1])
  }

  // A paragraph with text, under its nearest style.
  function CandidateOf(around: seq<string>, inlines: seq<Inline>): seq<Candidate> {
    if Trim(InlinesText(inlines)) == "" then [] else [Candidate(Nearest(around), inlines)]
  }

  function Candidates(ps: seq<(seq<string>, seq<Inline>)>): seq<Candidate> {
    Flat((p: (seq<string>, seq<Inline>)) => CandidateOf(p.0, p.1), ps)
  }

  lemma CandidatesConcat(a: seq<(seq<string>, seq<Inline>)>, b: seq<(seq<string>, seq<Inline>)>)
    ensures Candidates(a + b) == Candidates(a) + Candidates(b)
  {
    FlatConcat((p: (seq<string>, seq<Inline>)) => CandidateOf(p.0, p.1), a, b);
  }

  lemma ParaCandidate(inlines: seq<Inline>, around: seq<string>)
    ensures Candidates(Paragraphs(Para(inlines), around)) == CandidateOf(around, inlines)
  {
    FlatOne((p: (seq<string>, seq<Inline>)) => CandidateOf(p.0, p.1), (around, inlines));
  }

  lemma {:induction false} ParagraphsConcat(a: seq<Block>, b: seq<Block>, around: seq<string>)
    ensures AllParagraphs(a + b, around) == AllParagraphs(a, around) + AllParagraphs(b, around)
  {
    if |a| == 0 {
      assert a + b == b;
    } else {
      var ab := a + b;
      assert ab[0] == a[0] && ab[1..] == a[1..] + b;
      ParagraphsConcat(a[1..], b, around);
      var first := Paragraphs(a[0], around);
      assert AllParagraphs(ab, around) == first + AllParagraphs(ab[1..], around);
      assert AllParagraphs(a, around) == first + AllParagraphs(a[1..], around);
      assert first + (AllParagraphs(a[1..], around) + AllParagraphs(b, around))
          == first + AllParagraphs(a[1..], around) + AllParagraphs(b, around);
    }
  }

  lemma OneBlock(b: Block, around: seq<string>)
    ensures AllParagraphs([b], around) == Paragraphs(b, around)
  {
    assert [b][1..] == [];
  }

  lemma NextBlock(bs: seq<Block>, i: nat, around: seq<string>)
    requires i < |bs|
    ensures Candidates(AllParagraphs(bs[..i + 1], around)) ==
            Candidates(AllParagraphs(bs[..i], around)) + Candidates(Paragraphs(bs[i], around))
  {
    assert bs[..i + 1] == bs[..i] + [bs[i]];
    ParagraphsConcat(bs[..i], [bs[i]], around);
    OneBlock(bs[i], around);
    CandidatesConcat(AllParagraphs(bs[..i], around), Paragraphs(bs[i], around));
  }

  /** Handing the nearest style down finds every paragraph in document order under its own. */
  method CollectCandidates(b: Block, style: string, out0: seq<Candidate>, ghost around: seq<string>)
    returns (out: seq<Candidate>)
    requires style == Nearest(around)
    ensures out == out0 + Candidates(Paragraphs(b, around))
    decreases b
  {
    out := out0;
    match b {
      case Para(inlines) =>
        ParaCandidate(inlines, around);
        if Trim(InlinesText(inlines)) != "" {
          out := out + [Candidate(style, inlines)];
        }
      case Div(s, inner) =>
        var ds := style;
        if s != "" {
          ds := s;
        }
        assert (around + [s])[..|around|] == around;
        out := CollectInner(inner, ds, out, around + [s]);
      case Header(_, _) =>
      case Apart =>
    }
  }

  method CollectInner(inner: seq<Block>, style: string, out0: seq<Candidate>, ghost around: seq<string>)
    returns (out: seq<Candidate>)
    requires style == Nearest(around)
    ensures out == out0 + Candidates(AllParagraphs(inner, around))
    decreases inner
  {
    out := out0;
    for i := 0 to |inner|
      invariant out == out0 + Candidates(AllParagraphs(inner[..i], around))
    {
      NextBlock(inner, i, around);
      out := CollectCandidates(inner[i], style, out, around);
    }
    assert inner[..|inner|] == inner;
  }

  // ---- One chapter ----

  predicate Heading1(b: Block) {
    b.Header? && b.level == 1
  }

  // The blocks up to the next chapter.
  function Opening(bs: seq<Block>): (r: seq<Block>)
    ensures r <= bs
  {
    if |bs| == 0 || Heading1(bs[0]) then [] else [bs[0]] + Opening(bs[1..])
  }

  lemma {:induction false} OpeningStops(bs: seq<Block>, n: nat)
    requires n <= |bs| && forall i :: 0 <= i < n ==> !Heading1(bs[i])
    requires n == |bs| || Heading1(bs[n])
    ensures Opening(bs) == bs[..n]
    decreases n
  {
    if n > 0 {
      OpeningStops(bs[1..], n - 1);
      assert bs[..n] == [bs[0]] + bs[1..][..n - 1];
    }
  }

  lemma {:induction false} OpeningReaches(bs: seq<Block>, n: nat)
    requires n <= |bs| && forall i :: 0 <= i < n ==> !Heading1(bs[i])
    ensures bs[..n] <= Opening(bs)
    decreases n
  {
    if n > 0 {
      OpeningReaches(bs[1..], n - 1);
      assert bs[..n] == [bs[0]] + bs[1..][..n - 1];
    }
  }

  function FirstOf(cs: seq<Candidate>): seq<Candidate> {
    if |cs| > WINDOW then cs[..WINDOW] else cs
  }

  // The candidates a chapter's byline is looked for in.
  function Window(bs: seq<Block>): seq<Candidate> {
    FirstOf(Candidates(AllParagraphs(Opening(bs), [])))
  }

  lemma FirstOfPrefix(a: seq<Candidate>, b: seq<Candidate>)
    requires |a| >= WINDOW
    ensures FirstOf(a + b) == FirstOf(a)
  {
    assert (a + b)[..WINDOW] == a[..WINDOW];
    assert |a| == WINDOW ==> a[..WINDOW] == a;
    assert |a + b| == WINDOW ==> a + b == a;
  }

  lemma CandidatesOfJoined(a: seq<Block>, b: seq<Block>)
    ensures Candidates(AllParagraphs(a + b, [])) == Candidates(AllParagraphs(a, [])) + Candidates(AllParagraphs(b, []))
  {
    ParagraphsConcat(a, b, []);
    CandidatesConcat(AllParagraphs(a, []), AllParagraphs(b, []));
  }

  /** Stopping as soon as the window is full loses no candidate of it. */
  lemma StoppingEarly(bs: seq<Block>, n: nat)
    requires n <= |bs| && forall i :: 0 <= i < n ==> !Heading1(bs[i])
    requires |Candidates(AllParagraphs(bs[..n], []))| >= WINDOW
    ensures FirstOf(Candidates(AllParagraphs(bs[..n], []))) == Window(bs)
  {
    OpeningReaches(bs, n);
    var all := Opening(bs);
    assert all == bs[..n] + all[n..];
    CandidatesOfJoined(bs[..n], all[n..]);
    FirstOfPrefix(Candidates(AllParagraphs(bs[..n], [])), Candidates(AllParagraphs(all[n..], [])));
  }

  // No chapter heading among the first n blocks, and these are their candidates.
  predicate Collected(bs: seq<Block>, n: nat, cands: seq<Candidate>) {
    n <= |bs| && (forall i :: 0 <= i < n ==> !Heading1(bs[i])) && cands == Candidates(AllParagraphs(bs[..n], []))
  }

  lemma WindowDone(bs: seq<Block>, n: nat, cands: seq<Candidate>)
    requires Collected(bs, n, cands)
    requires |cands| >= WINDOW || n == |bs| || Heading1(bs[n])
    ensures FirstOf(cands) == Window(bs)
  {
    if |cands| >= WINDOW {
      StoppingEarly(bs, n);
    } else {
      OpeningStops(bs, n);
    }
  }

  method CollectBlock(ghost bs: seq<Block>, ghost n: nat, b: Block, cands0: seq<Candidate>)
    returns (cands: seq<Candidate>)
    requires n < |bs| && b == bs[n] && Collected(bs, n, cands0) && !Heading1(b)
    ensures Collected(bs, n + 1, cands)
  {
    NextBlock(bs, n, []);
    cands := CollectCandidates(b, "", cands0, []);
  }

  method CollectWindow(blocks: seq<Block>, start: nat) returns (cands: seq<Candidate>)
    requires start <= |blocks|
    ensures cands == Window(blocks[start..]) && |cands| <= 3
    ensures cands <= Candidates(AllParagraphs(Opening(blocks[start..]), []))
    ensures |cands| == 3 || cands == Candidates(AllParagraphs(Opening(blocks[start..]), []))
  {
    ghost var rest := blocks[start..];
    cands := [];
    var j := start;
    while j < |blocks| && |cands| < WINDOW
      invariant start <= j <= |blocks|
      invariant Collected(rest, j - start, cands)
    {
      var b := blocks[j];
      assert b == rest[j - start];
      if Heading1(b) {
        break;
      }
      cands := CollectBlock(rest, j - start, b, cands);
      j := j + 1;
    }
    WindowDone(rest, j - start, cands);
    if |cands| > WINDOW {
      cands := cands[..WINDOW];
    }
  }

  method FirstOffer(rules: Rules, cands: seq<Candidate>, trust: nat) returns (name: Option<string>, ghost at: nat)
    ensures name.None? ==> forall i: nat :: !Offers(rules, cands, trust, i)
    ensures name.Some? ==> Offers(rules, cands, trust, at) && Offer(rules, cands[at], trust) == name
    ensures name.Some? ==> forall j :: 0 <= j < at ==> !Offers(rules, cands, trust, j)
  {
    at := 0;
    for i := 0 to |cands|
      invariant forall j :: 0 <= j < i ==> !Offers(rules, cands, trust, j)
    {
      var offer := Offer(rules, cands[i], trust);
      if offer.Some? {
        return offer, i;
      }
    }
    return None, 0;
  }

  lemma BestIsChosen(rules: Rules, cs: seq<Candidate>, k: nat, i: nat, name: string)
    requires Best(rules, cs, k, i) && Offer(rules, cs[i], k) == Some(name)
    ensures Chosen(rules, cs, name)
  {
    forall l: nat, j: nat | Best(rules, cs, l, j) ensures Some(name) == Offer(rules, cs[j], l) {
      BestIsUnique(rules, cs, k, i, l, j);
    }
  }

  /** The byline is chosen by confidence first, then by position, among the first candidates before the next chapter. */
  method ScanByline(rules: Rules, blocks: seq<Block>, start: nat) returns (name: string)
    requires start <= |blocks|
    ensures Chosen(rules, Window(blocks[start..]), name)
    ensures ByConfidence(rules, Window(blocks[start..]), name)
  {
    name := ChooseByline(rules, blocks, start);
    ChosenByConfidence(rules, Window(blocks[start..]), name);
  }

  method ChooseByline(rules: Rules, blocks: seq<Block>, start: nat) returns (name: string)
    requires start <= |blocks|
    ensures Chosen(rules, Window(blocks[start..]), name)
  {
    var cands := CollectWindow(blocks, start);
    name := ChooseFrom(rules, cands);
  }

  method ChooseFrom(rules: Rules, cands: seq<Candidate>) returns (name: string)
    ensures Chosen(rules, cands, name)
  {
    var styled, i := FirstOffer(rules, cands, 0);
    if styled.Some? {
      BestIsChosen(rules, cands, 0, i, styled.value);
      return styled.value;
    }
    var prefixed, j := FirstOffer(rules, cands, 1);
    if prefixed.Some? {
      BestIsChosen(rules, cands, 1, j, prefixed.value);
      return prefixed.value;
    }
    var italic, k := FirstOffer(rules, cands, 2);
    if italic.Some? {
      BestIsChosen(rules, cands, 2, k, italic.value);
      return italic.value;
    }
    return "";
  }

  lemma {:induction false} FirstOfClass(rules: Rules, cs: seq<Candidate>, k: nat, i: nat) returns (at: nat)
    requires Offers(rules, cs, k, i)
    ensures at <= i && Offers(rules, cs, k, at) && forall j :: 0 <= j < at ==> !Offers(rules, cs, k, j)
    decreases i
  {
    at := i;
    if j :| 0 <= j < i && Offers(rules, cs, k, j) {
      at := FirstOfClass(rules, cs, k, j);
    }
  }

  /** Where anything is offered, there is a best offer. */
  lemma {:induction false} SomethingIsBest(rules: Rules, cs: seq<Candidate>, k: nat, i: nat) returns (l: nat, j: nat)
    requires k < 3 && Offers(rules, cs, k, i)
    ensures Best(rules, cs, l, j)
    decreases k
  {
    if m: nat, n: nat :| m < k && Offers(rules, cs, m, n) {
      l, j := SomethingIsBest(rules, cs, m, n);
    } else {
      l := k;
      j := FirstOfClass(rules, cs, k, i);
    }
  }

  /** The choice is unique. */
  lemma ChosenIsUnique(rules: Rules, cs: seq<Candidate>, a: string, b: string)
    requires Chosen(rules, cs, a) && Chosen(rules, cs, b)
    ensures a == b
  {
    if k: nat, i: nat :| Best(rules, cs, k, i) {
      assert Some(a) == Offer(rules, cs[i], k) == Some(b);
    }
  }

  lemma NameIsNotEmpty(rules: Rules, t: string)
    requires NameAfterBy(rules, t).Some?
    requires forall c: char :: rules.capital(c) ==> !IsSpace(c)
    ensures NameAfterBy(rules, t).value != ""
  {
    var name := SkipSpaces(t[2..]);
    BlankTrims(name);
  }

  lemma OfferIsNotEmpty(rules: Rules, c: Candidate, k: nat)
    requires k < 3 && Offer(rules, c, k).Some?
    requires forall c: char :: rules.capital(c) ==> !IsSpace(c)
    ensures Offer(rules, c, k).value != ""
  {
    var t := Trim(InlinesText(c.inlines));
    if BylineFromBy(rules, t).Some? {
      NameIsNotEmpty(rules, Trim(t));
    }
  }

  /** No author is suggested exactly when no candidate offers one. */
  lemma NoAuthorMeansNoOffer(rules: Rules, cs: seq<Candidate>, name: string)
    requires Chosen(rules, cs, name)
    requires forall c: char :: rules.capital(c) ==> !IsSpace(c)
    ensures name == "" <==> forall k: nat, i: nat :: k < 3 ==> !Offers(rules, cs, k, i)
  {
    if k: nat, i: nat :| k < 3 && Offers(rules, cs, k, i) {
      var l, j := SomethingIsBest(rules, cs, k, i);
      OfferIsNotEmpty(rules, cs[j], l);
    }
  }

  // ---- Every chapter ----

  predicate Titled(b: Block) {
    Heading1(b) && Trim(InlinesText(b.title)) != ""
  }

  function TitledCount(bs: seq<Block>): nat {
    if |bs| == 0 then 0 else TitledCount(bs[..|bs| - 1]) + if Titled(bs[|bs| - 1]) then 1 else 0
  }

  // One chapter for each titled level-1 heading, in order, with the byline of its own opening.
  ghost predicate Detected(rules: Rules, bs: seq<Block>, n: nat, out: seq<Chapter>)
    requires n <= |bs|
  {
    && |out| == TitledCount(bs[..n])
    && forall k :: 0 <= k < n && Titled(bs[k]) ==> IsChapter(rules, bs, k, out)
  }

  ghost predicate IsChapter(rules: Rules, bs: seq<Block>, k: nat, out: seq<Chapter>)
    requires k < |bs| && Titled(bs[k])
  {
    var at := TitledCount(bs[..k]);
    && at < |out|
    && out[at].title == Trim(InlinesText(bs[k].title))
    && Chosen(rules, Window(bs[k + 1..]), out[at].author)
    && ByConfidence(rules, Window(bs[k + 1..]), out[at].author)
  }

  lemma KeepsChapters(rules: Rules, bs: seq<Block>, n: nat, before: seq<Chapter>, out: seq<Chapter>)
    requires n <= |bs| && before <= out && Detected(rules, bs, n, before)
    ensures forall k :: 0 <= k < n && Titled(bs[k]) ==> IsChapter(rules, bs, k, out)
  {
    forall k | 0 <= k < n && Titled(bs[k]) ensures IsChapter(rules, bs, k, out) {
      assert IsChapter(rules, bs, k, before);
    }
  }

  method DetectChapters(rules: Rules, blocks: seq<Block>) returns (out: seq<Chapter>)
    ensures Detected(rules, blocks, |blocks|, out)
  {
    out := [];
    for i := 0 to |blocks|
      invariant Detected(rules, blocks, i, out)
    {
      assert blocks[..i + 1][..i] == blocks[..i];
      ghost var before := out;
      if Heading1(blocks[i]) {
        var title := Trim(InlinesText(blocks[i].title));
        if title != "" {
          var author := ScanByline(rules, blocks, i + 1);
          out := out + [Chapter(title, author)];
          assert IsChapter(rules, blocks, i, out);
        }
      }
      KeepsChapters(rules, blocks, i, before, out);
    }
  }

  lemma {:induction false} OpeningOfJoined(a: seq<Block>, b: seq<Block>)
    requires |b| > 0 && Heading1(b[0])
    ensures Opening(a + b) == Opening(a)
  {
    if |a| == 0 {
      assert a + b == b;
    } else {
      OpeningOfJoined(a[1..], b);
      assert (a + b)[1..] == a[1..] + b;
    }
  }

  /** A chapter's byline comes from its own pages: what follows the next chapter heading is not looked at. */
  lemma BylineIsLocal(rules: Rules, a: seq<Block>, b: seq<Block>, c: seq<Block>, name: string)
    requires |b| > 0 && Heading1(b[0]) && |c| > 0 && Heading1(c[0])
    ensures Chosen(rules, Window(a + b), name) <==> Chosen(rules, Window(a + c), name)
    ensures Chosen(rules, Window(a + b), name) <==> Chosen(rules, Window(a), name)
  {
    OpeningOfJoined(a, b);
    OpeningOfJoined(a, c);
  }
}
