/** A manuscript without its typed contents: its map is the map of the whole but for those sections. */
module BookContents {
  import opened BookBlocks
  import opened BookMap
  import opened BookSections
  import opened DocxReader
  import opened Options
  import opened Words

  // ---- The paragraphs of typed contents ----

  predicate HasH1(body: seq<Para>) {
    exists i :: 0 <= i < |body| && IsH1(body[i])
  }

  /** The last paragraph belongs to a contents section: the nearest Heading 1 is one of contents, and
      not the first of the manuscript. */
  predicate UnderContents(v: Vocabulary, body: seq<Para>) {
    if |body| == 0 then false
    else
      var n := |body| - 1;
      if IsH1(body[n]) then HasH1(body[..n]) && v.contents(Trim(body[n].text))
      else UnderContents(v, body[..n])
  }

  function StripBody(v: Vocabulary, body: seq<Para>): seq<Para> {
    if |body| == 0 then [] else
      var n := |body| - 1;
      StripBody(v, body[..n]) + if UnderContents(v, body) then [] else [body[n]]
  }

  /** Title and subtitle lines stay wherever they stand. */
  function Strip(v: Vocabulary, ps: seq<Para>): seq<Para> {
    if |ps| == 0 then [] else
      var n := |ps| - 1;
      Strip(v, ps[..n]) + if !IsTitle(ps[n]) && UnderContents(v, BodyOf(ps)) then [] else [ps[n]]
  }

  lemma {:induction false} StripKeepsTitles(v: Vocabulary, ps: seq<Para>, style: string)
    requires style == "title" || style == "subtitle"
    ensures StyledText(Strip(v, ps), style) == StyledText(ps, style)
  {
    if |ps| > 0 {
      var front, p := ps[..|ps| - 1], ps[|ps| - 1];
      StripKeepsTitles(v, front, style);
      assert (Strip(v, front) + [p])[..|Strip(v, front)|] == Strip(v, front);
      assert Strip(v, front) + [] == Strip(v, front);
    }
  }

  lemma {:induction false} BodyOfStrip(v: Vocabulary, ps: seq<Para>)
    ensures BodyOf(Strip(v, ps)) == StripBody(v, BodyOf(ps))
  {
    if |ps| > 0 {
      var front, p := ps[..|ps| - 1], ps[|ps| - 1];
      BodyOfStrip(v, front);
      NextPara(Strip(v, front), p);
      NextPara(front, p);
      assert ps == front + [p] && Strip(v, front) + [] == Strip(v, front);
      if !IsTitle(p) {
        assert BodyOf(ps)[..|BodyOf(front)|] == BodyOf(front);
        assert StripBody(v, BodyOf(front)) + [] == StripBody(v, BodyOf(front));
      }
    }
  }

  // ---- Cutting what is left ----

  lemma {:induction false} ClearedSnoc(v: Vocabulary, s: seq<Span>, x: Span, n: nat)
    requires n <= |s|
    ensures Cleared(v, s + [x], n) == Cleared(v, s, n) + if v.contents(x.title) then [] else [x]
    decreases |s| - n
  {
    var all := s + [x];
    assert all[n] == if n < |s| then s[n] else x;
    if n == |s| {
      assert Without(all, n) == s;
      assert s + [] == s;
    } else if v.contents(s[n].title) {
      assert Without(all, n) == Without(s, n) + [x];
      ClearedSnoc(v, Without(s, n), x, n);
    } else {
      ClearedSnoc(v, s, x, n + 1);
    }
  }

  /** Before the first heading nothing is contents. */
  lemma {:induction false} NothingBefore(v: Vocabulary, body: seq<Para>)
    requires forall i :: 0 <= i < |body| - 1 ==> !IsH1(body[i])
    ensures !UnderContents(v, body) && StripBody(v, body) == body
  {
    if |body| > 0 {
      NothingBefore(v, body[..|body| - 1]);
    }
  }

  /** From the first heading on: the cut of what is left, and whether its last span is contents. */
  ghost predicate Split(v: Vocabulary, body: seq<Para>, k: nat)
    requires k < |body| && IsH1(body[k])
  {
    var spans := Spans(body[k..]);
    && k < |StripBody(v, body)| && StripBody(v, body)[..k + 1] == body[..k + 1]
    && Spans(StripBody(v, body)[k..]) == Cleared(v, spans, 1)
    && (UnderContents(v, body) <==> |spans| > 1 && v.contents(spans[|spans| - 1].title))
  }

  lemma SplitFirst(v: Vocabulary, body: seq<Para>, k: nat)
    requires |body| == k + 1 && FirstH1(body, Some(k))
    ensures Split(v, body, k)
  {
    NothingBefore(v, body);
    SpansNext([], body[k]);
    assert body[k..] == [] + [body[k]];
  }

  lemma StripNext(v: Vocabulary, front: seq<Para>, p: Para)
    ensures UnderContents(v, front + [p]) <==>
            if IsH1(p) then HasH1(front) && v.contents(Trim(p.text)) else UnderContents(v, front)
    ensures StripBody(v, front + [p]) ==
            if UnderContents(v, front + [p]) then StripBody(v, front) else StripBody(v, front) + [p]
  {
    assert (front + [p])[..|front|] == front;
    assert StripBody(v, front) + [] == StripBody(v, front);
  }

  /** One more paragraph behind a heading is cut with the rest. */
  lemma RestNext(ps: seq<Para>, p: Para, k: nat)
    requires k < |ps| && IsH1(ps[k])
    ensures (ps + [p])[k] == ps[k] && (ps + [p])[..k + 1] == ps[..k + 1]
    ensures |Spans(ps[k..])| > 0 && Spans((ps + [p])[k..]) == Longer(Spans(ps[k..]), p)
  {
    assert (ps + [p])[k..] == ps[k..] + [p] && ps[k..][0] == ps[k];
    SpansNext(ps[k..], p);
  }

  lemma SameHeading(left: seq<Para>, front: seq<Para>, k: nat)
    requires k < |left| && k < |front| && left[..k + 1] == front[..k + 1]
    ensures left[k] == front[k]
  {
    assert left[k] == left[..k + 1][k] && front[k] == front[..k + 1][k];
  }

  lemma SplitHeading(v: Vocabulary, front: seq<Para>, p: Para, k: nat)
    requires k < |front| && IsH1(front[k]) && Split(v, front, k) && IsH1(p)
    ensures (front + [p])[k] == front[k] && Split(v, front + [p], k)
  {
    var left := StripBody(v, front);
    StripNext(v, front, p);
    RestNext(front, p, k);
    SameHeading(left, front, k);
    assert HasH1(front);
    ClearedSnoc(v, Spans(front[k..]), Span(Trim(p.text), []), 1);
    if !v.contents(Trim(p.text)) {
      RestNext(left, p, k);
    }
  }

  /** A longer last span stays or goes like the last span. */
  lemma ClearedLonger(v: Vocabulary, s: seq<Span>, p: Para)
    requires |s| > 0 && !IsH1(p)
    ensures var z := s[|s| - 1];
      if |s| > 1 && v.contents(z.title) then Cleared(v, Longer(s, p), 1) == Cleared(v, s, 1)
      else |Cleared(v, s, 1)| > 0 && Cleared(v, Longer(s, p), 1) == Longer(Cleared(v, s, 1), p)
  {
    var start, z := s[..|s| - 1], s[|s| - 1];
    var longer := Span(z.title, z.paras + [p]);
    assert s == start + [z] && Longer(s, p) == start + [longer];
    if |s| > 1 {
      ClearedSnoc(v, start, z, 1);
      ClearedSnoc(v, start, longer, 1);
      LongerLast(Cleared(v, start, 1), z, p);
    }
  }

  lemma LongerLast(c: seq<Span>, z: Span, p: Para)
    requires !IsH1(p)
    ensures Longer(c + [z], p) == c + [Span(z.title, z.paras + [p])]
  {
  }

  lemma SplitUnder(v: Vocabulary, front: seq<Para>, p: Para, k: nat)
    requires k < |front| && IsH1(front[k]) && Split(v, front, k) && !IsH1(p)
    ensures (front + [p])[k] == front[k] && Split(v, front + [p], k)
  {
    var left, s := StripBody(v, front), Spans(front[k..]);
    StripNext(v, front, p);
    RestNext(front, p, k);
    SameHeading(left, front, k);
    ClearedLonger(v, s, p);
    assert Longer(s, p)[|s| - 1].title == s[|s| - 1].title && |Longer(s, p)| == |s|;
    if !UnderContents(v, front) {
      RestNext(left, p, k);
    }
  }

  lemma {:induction false} StripSplits(v: Vocabulary, body: seq<Para>, k: nat)
    requires FirstH1(body, Some(k))
    ensures Split(v, body, k)
  {
    if |body| == k + 1 {
      SplitFirst(v, body, k);
    } else {
      var front, p := body[..|body| - 1], body[|body| - 1];
      StripSplits(v, front, k);
      assert body == front + [p];
      if IsH1(p) { SplitHeading(v, front, p, k); } else { SplitUnder(v, front, p, k); }
    }
  }

  /** The same first heading, at the same place. */
  lemma SameFirst(v: Vocabulary, body: seq<Para>, at: Option<nat>, other: Option<nat>)
    requires FirstH1(body, at) && FirstH1(StripBody(v, body), other)
    ensures other == at
    ensures at.None? ==> StripBody(v, body) == body
    ensures at.Some? ==> StripBody(v, body)[..at.value] == body[..at.value] && Split(v, body, at.value)
  {
    match at
    case None => NothingBefore(v, body);
    case Some(k) =>
      StripSplits(v, body, k);
      var left := StripBody(v, body);
      assert left[..k + 1][..k] == body[..k + 1][..k] && left[..k + 1][k] == body[..k + 1][k];
      assert forall i :: 0 <= i <= k ==> left[i] == left[..k + 1][i] && body[i] == body[..k + 1][i];
  }

  // ---- The two maps ----

  /** Taking every typed contents section after the first heading out of a manuscript, paragraphs and
      all, takes those sections out of its map and changes nothing else: the other sections keep
      their kinds and counts, the pieces before the first heading stay, and the words kept are the same. */
  lemma AllContentsCanGo(
      v: Vocabulary, x: Input, at: Option<nat>, bs: seq<Block>, m: Map,
      left: Option<nat>, cs: seq<Block>, r: Map)
    requires IsMapOf(v, x, at, bs, m) && IsMapOf(v, x.(paras := Strip(v, x.paras)), left, cs, r)
    ensures r.title == m.title && r.subtitle == m.subtitle && r.noHeading == m.noHeading
    ensures r.untitled == m.untitled && r.missing == m.missing
    ensures r.sections == ClearedSections(m.sections, 1)
    ensures forall i :: 1 <= i < |r.sections| ==> r.sections[i].kind != Contents
    ensures KeptWords(r) == KeptWords(m)
  {
    BodyOfStrip(v, x.paras);
    StripKeepsTitles(v, x.paras, "title");
    StripKeepsTitles(v, x.paras, "subtitle");
    var body := BodyOf(x.paras);
    SameFirst(v, body, at, left);
    if at.Some? {
      OnlyOneCut(v, x.author, body[..at.value], bs, cs);
      var spans := Spans(body[at.value..]);
      SpansCleared(v, spans, x.bookTitle, m.title);
    }
  }

  /** The same for the cut of the manuscript, with the title rule applied to each. */
  lemma SpansCleared(v: Vocabulary, spans: seq<Span>, bookTitle: string, title: string)
    requires |spans| > 0
    ensures var left := Cleared(v, spans, 1);
      var titled := TitleDropped(v, spans, bookTitle, title);
      && |left| > 0 && TitleDropped(v, left, bookTitle, title) == titled
      && SectionsOf(v, left, titled) == ClearedSections(SectionsOf(v, spans, titled), 1)
      && SectionWords(SectionsOf(v, left, titled), false) == SectionWords(SectionsOf(v, spans, titled), false)
      && forall i :: 1 <= i < |left| ==> SectionsOf(v, left, titled)[i].kind != Contents
  {
    var left, titled := Cleared(v, spans, 1), TitleDropped(v, spans, bookTitle, title);
    ClearedHasNone(v, spans, 1);
    assert left[0] == spans[0] by {
      assert left[..1][0] == spans[..1][0];
    }
    ClearedSpans(v, spans, titled, 1);
    forall i | 1 <= i < |left| ensures SectionsOf(v, left, titled)[i].kind != Contents {
      assert SectionsOf(v, left, titled)[i] == SectionOf(v, left, titled, i);
    }
  }
}
