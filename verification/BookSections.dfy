/** Heading 1 sections of a manuscript: how they are cut, which are dropped, and what the rest are. */
module BookSections {
  import opened Words
  import opened DocxReader
  import opened Options

  // The closed vocabularies and the heading normal form they are matched on.
  datatype Vocabulary = Vocabulary(
    front: string -> bool, back: string -> bool, contents: string -> bool, norm: string -> string)

  datatype Span = Span(title: string, paras: seq<Para>)
  datatype Kind = Front | Body | Back | TitlePage | Contents
  datatype Section = Section(title: string, kind: Kind, paras: nat, words: nat)
  datatype Warning = LateFront(title: string, bodyStart: string) | EarlyBack(title: string)

  function HeadingLevel(p: Para): nat {
    if |p.style| == 8 && p.style[..7] == "heading" && '1' <= p.style[7] <= '9'
    then p.style[7] as int - '0' as int
    else 0
  }

  predicate IsH1(p: Para) {
    HeadingLevel(p) == 1
  }

  function WordsIn(ps: seq<Para>): nat {
    if |ps| == 0 then 0 else WordsIn(ps[..|ps| - 1]) + WordCount(ps[|ps| - 1].text)
  }

  lemma {:induction false} WordsConcat(a: seq<Para>, b: seq<Para>)
    ensures WordsIn(a + b) == WordsIn(a) + WordsIn(b)
  {
    if |b| == 0 {
      assert a + b == a;
    } else {
      WordsConcat(a, b[..|b| - 1]);
      assert (a + b)[..|a + b| - 1] == a + b[..|b| - 1];
    }
  }

  // ---- Cutting ----

  predicate Headed(ps: seq<Para>) {
    |ps| > 0 ==> IsH1(ps[0])
  }

  function Spans(ps: seq<Para>): (s: seq<Span>)
    requires Headed(ps)
    ensures |ps| > 0 ==> |s| > 0
  {
    if |ps| == 0 then [] else
      var n := |ps| - 1;
      var s := Spans(ps[..n]);
      if IsH1(ps[n]) then s + [Span(Trim(ps[n].text), [])]
      else s[|s| - 1 := Span(s[|s| - 1].title, s[|s| - 1].paras + [ps[n]])]
  }

  function H1s(ps: seq<Para>): seq<Para> {
    if |ps| == 0 then [] else
      H1s(ps[..|ps| - 1]) + if IsH1(ps[|ps| - 1]) then [ps[|ps| - 1]] else []
  }

  // Headings put back over what is under them.
  function Rebuilt(hs: seq<Para>, s: seq<Span>): seq<Para>
    requires |hs| == |s|
  {
    if |s| == 0 then [] else
      Rebuilt(hs[..|s| - 1], s[..|s| - 1]) + [hs[|s| - 1]] + s[|s| - 1].paras
  }

  // Sections with the headings they came from.
  predicate CutFrom(ps: seq<Para>, hs: seq<Para>, s: seq<Span>) {
    && |s| == |hs| && Rebuilt(hs, s) == ps
    && (forall i :: 0 <= i < |s| ==> s[i].title == Trim(hs[i].text) && IsH1(hs[i]))
    && (forall i, k :: 0 <= i < |s| && 0 <= k < |s[i].paras| ==> !IsH1(s[i].paras[k]))
  }

  lemma LongerIsCut(ps: seq<Para>, hs: seq<Para>, s: seq<Span>, p: Para)
    requires CutFrom(ps, hs, s) && (|s| > 0 || IsH1(p))
    ensures CutFrom(ps + [p], if IsH1(p) then hs + [p] else hs, Longer(s, p))
  {
    if IsH1(p) {
      RebuiltHeading(hs, s, p);
    } else {
      RebuiltUnder(hs, s, p);
    }
  }

  /** Cutting loses nothing, keeps the order, and cuts exactly at the Heading 1 paragraphs. */
  lemma {:induction false} CutsAtHeadings(ps: seq<Para>)
    requires Headed(ps)
    ensures CutFrom(ps, H1s(ps), Spans(ps))
  {
    if |ps| > 0 {
      var front, p := ps[..|ps| - 1], ps[|ps| - 1];
      CutsAtHeadings(front);
      assert ps == front + [p];
      SpansNext(front, p);
      LongerIsCut(front, H1s(front), Spans(front), p);
      assert H1s(front) + [] == H1s(front);
    }
  }

  lemma RebuiltHeading(hs: seq<Para>, s: seq<Span>, h: Para)
    requires |hs| == |s|
    ensures Rebuilt(hs + [h], s + [Span(Trim(h.text), [])]) == Rebuilt(hs, s) + [h]
  {
    var t := s + [Span(Trim(h.text), [])];
    assert t[..|s|] == s && (hs + [h])[..|s|] == hs;
  }

  lemma RebuiltUnder(hs: seq<Para>, s: seq<Span>, p: Para)
    requires |hs| == |s| > 0
    ensures var n := |s| - 1; Rebuilt(hs, s[n := Span(s[n].title, s[n].paras + [p])]) == Rebuilt(hs, s) + [p]
  {
    var n := |s| - 1;
    var t := s[n := Span(s[n].title, s[n].paras + [p])];
    assert t[..n] == s[..n];
    Grouped(Rebuilt(hs[..n], s[..n]) + [hs[n]], s[n].paras, [p]);
  }

  lemma Grouped(a: seq<Para>, b: seq<Para>, c: seq<Para>)
    ensures a + (b + c) == a + b + c
  {
  }

  // One more paragraph: a new section, or one more under the last.
  function Longer(s: seq<Span>, p: Para): seq<Span>
    requires |s| > 0 || IsH1(p)
  {
    if IsH1(p) then s + [Span(Trim(p.text), [])]
    else s[|s| - 1 := Span(s[|s| - 1].title, s[|s| - 1].paras + [p])]
  }

  lemma SpansNext(ps: seq<Para>, p: Para)
    requires Headed(ps + [p])
    ensures Headed(ps) && (|Spans(ps)| > 0 || IsH1(p)) && Spans(ps + [p]) == Longer(Spans(ps), p)
  {
    assert (ps + [p])[..|ps|] == ps;
  }

  lemma LongerConcat(s: seq<Span>, t: seq<Span>, p: Para)
    requires |t| > 0 || IsH1(p)
    ensures s + Longer(t, p) == Longer(s + t, p)
  {
    if !IsH1(p) {
      assert (s + t)[|s + t| - 1] == t[|t| - 1];
    }
  }

  lemma {:induction false} SpansConcat(a: seq<Para>, b: seq<Para>)
    requires Headed(a) && Headed(b)
    ensures Headed(a + b) && Spans(a + b) == Spans(a) + Spans(b)
  {
    if |b| == 0 {
      assert a + b == a;
    } else {
      var front, p := b[..|b| - 1], b[|b| - 1];
      assert b == front + [p] && a + b == a + front + [p];
      SpansConcat(a, front);
      SpansNext(front, p);
      SpansNext(a + front, p);
      LongerConcat(Spans(a), Spans(front), p);
    }
  }

  method CutSpans(ps: seq<Para>) returns (spans: seq<Span>)
    requires Headed(ps)
    ensures spans == Spans(ps)
  {
    spans := [];
    for i := 0 to |ps|
      invariant spans == Spans(ps[..i])
    {
      assert ps[..i + 1][..i] == ps[..i];
      if IsH1(ps[i]) {
        spans := spans + [Span(Trim(ps[i].text), [])];
      } else {
        var last := spans[|spans| - 1];
        spans := spans[|spans| - 1 := last.(paras := last.paras + [ps[i]])];
      }
    }
    assert ps[..|ps|] == ps;
  }

  // ---- Dropping ----

  const STUB_PARAS := 3
  const STUB_WORDS := 60

  // A byline or placeholder: few paragraphs, few words, no heading.
  predicate Stub(ps: seq<Para>) {
    |ps| <= STUB_PARAS && WordsIn(ps) <= STUB_WORDS && forall i :: 0 <= i < |ps| ==> HeadingLevel(ps[i]) == 0
  }

  method IsTitleStub(ps: seq<Para>) returns (stub: bool)
    ensures stub == Stub(ps)
  {
    if |ps| > STUB_PARAS {
      return false;
    }
    var words := 0;
    for i := 0 to |ps|
      invariant words == WordsIn(ps[..i])
      invariant forall k :: 0 <= k < i ==> HeadingLevel(ps[k]) == 0
    {
      assert ps[..i + 1][..i] == ps[..i];
      if HeadingLevel(ps[i]) > 0 {
        return false;
      }
      words := words + WordCount(ps[i].text);
    }
    assert ps[..|ps|] == ps;
    return words <= STUB_WORDS;
  }

  // The first section repeats the book's title over no more than a stub.
  predicate TitleDropped(v: Vocabulary, spans: seq<Span>, bookTitle: string, styledTitle: string) {
    && |spans| > 0
    && var first := v.norm(spans[0].title);
      && first != ""
      && (first == v.norm(bookTitle) || first == v.norm(styledTitle))
      && Stub(spans[0].paras)
  }

  predicate Kept(v: Vocabulary, spans: seq<Span>, titled: bool, i: int) {
    0 <= i < |spans| && !(titled && i == 0) && !v.contents(spans[i].title)
  }

  // ---- Classifying ----

  predicate AllFront(v: Vocabulary, spans: seq<Span>, titled: bool) {
    forall j :: 0 <= j < |spans| && Kept(v, spans, titled, j) ==> v.front(spans[j].title)
  }

  // Every kept heading up to i is front matter.
  predicate FrontTo(v: Vocabulary, spans: seq<Span>, titled: bool, i: int) {
    forall j :: 0 <= j < |spans| && Kept(v, spans, titled, j) && j <= i ==> v.front(spans[j].title)
  }

  // Every kept heading from i on is back matter.
  predicate BackFrom(v: Vocabulary, spans: seq<Span>, titled: bool, i: int) {
    forall j :: 0 <= j < |spans| && Kept(v, spans, titled, j) && i <= j ==> v.back(spans[j].title)
  }

  /** What section i is, told from the titles around it. */
  function KindOf(v: Vocabulary, spans: seq<Span>, titled: bool, i: nat): Kind
    requires i < |spans|
  {
    if titled && i == 0 then TitlePage
    else if v.contents(spans[i].title) then Contents
    else if AllFront(v, spans, titled) then Body
    else if FrontTo(v, spans, titled, i) then Front
    else if BackFrom(v, spans, titled, i) then Back
    else Body
  }

  function KindsOf(v: Vocabulary, spans: seq<Span>, titled: bool): (ks: seq<Kind>)
    ensures |ks| == |spans|
    ensures forall i :: 0 <= i < |ks| ==> ks[i] == KindOf(v, spans, titled, i)
  {
    seq(|spans|, i requires 0 <= i < |spans| => KindOf(v, spans, titled, i))
  }

  function Rank(k: Kind): nat {
    match k
    case Front => 0
    case Back => 2
    case _ => 1
  }

  /** Kept sections run front, then body, then back. */
  lemma FrontBodyBack(v: Vocabulary, spans: seq<Span>, titled: bool, i: nat, j: nat)
    requires i <= j && Kept(v, spans, titled, i) && Kept(v, spans, titled, j)
    ensures Rank(KindOf(v, spans, titled, i)) <= Rank(KindOf(v, spans, titled, j))
  {
    if FrontTo(v, spans, titled, j) {
      assert FrontTo(v, spans, titled, i);
    }
    if BackFrom(v, spans, titled, i) {
      assert BackFrom(v, spans, titled, j);
    }
  }

  // The kept indices, in order.
  ghost predicate Indexed(v: Vocabulary, spans: seq<Span>, titled: bool, idx: seq<nat>) {
    && Increasing(idx, |spans|)
    && (forall j :: 0 <= j < |idx| ==> Kept(v, spans, titled, idx[j]))
    && (forall i :: Kept(v, spans, titled, i) ==> i in idx)
  }

  ghost predicate Increasing(idx: seq<nat>, n: nat) {
    (forall j :: 0 <= j < |idx| ==> idx[j] < n) && (forall j, k :: 0 <= j < k < |idx| ==> idx[j] < idx[k])
  }

  // The longest front run, and the longest back run after it.
  ghost predicate Runs(v: Vocabulary, spans: seq<Span>, idx: seq<nat>, frontEnd: nat, backStart: nat)
    requires Increasing(idx, |spans|)
  {
    && frontEnd <= backStart <= |idx|
    && (forall j :: 0 <= j < frontEnd ==> v.front(spans[idx[j]].title))
    && (frontEnd < |idx| ==> !v.front(spans[idx[frontEnd]].title))
    && (forall j :: backStart <= j < |idx| ==> v.back(spans[idx[j]].title))
    && (frontEnd < backStart ==> !v.back(spans[idx[backStart - 1]].title))
  }

  lemma RunsDecide(v: Vocabulary, spans: seq<Span>, titled: bool, idx: seq<nat>, f: nat, b: nat, j: nat)
    requires Indexed(v, spans, titled, idx) && Runs(v, spans, idx, f, b)
    requires j < |idx|
    ensures AllFront(v, spans, titled) <==> f == |idx|
    ensures FrontTo(v, spans, titled, idx[j]) <==> j < f
    ensures j >= f ==> (BackFrom(v, spans, titled, idx[j]) <==> j >= b)
  {
    assert f < |idx| ==> Kept(v, spans, titled, idx[f]);
    assert f < b ==> Kept(v, spans, titled, idx[b - 1]);
    forall i | Kept(v, spans, titled, i) ensures exists k :: 0 <= k < |idx| && idx[k] == i {
      assert i in idx;
    }
  }

  /** Counting runs over the kept headings gives each its kind. */
  lemma RunsGiveKinds(v: Vocabulary, spans: seq<Span>, titled: bool, idx: seq<nat>, f: nat, b: nat, j: nat)
    requires Indexed(v, spans, titled, idx) && Runs(v, spans, idx, f, b)
    requires j < |idx|
    ensures KindOf(v, spans, titled, idx[j]) ==
            if f == |idx| then Body else if j < f then Front else if j >= b then Back else Body
  {
    RunsDecide(v, spans, titled, idx, f, b, j);
    assert Kept(v, spans, titled, idx[j]);
  }

  // The warnings the classifier gives, in order; a late front heading is told where the body starts.
  function WarningsTo(v: Vocabulary, spans: seq<Span>, kinds: seq<Kind>, bodyStart: string, n: nat): seq<Warning>
    requires n <= |spans| == |kinds|
  {
    if n == 0 then [] else
      var t := spans[n - 1].title;
      WarningsTo(v, spans, kinds, bodyStart, n - 1) +
      if kinds[n - 1] != Body then []
      else if v.front(t) then [LateFront(t, bodyStart)]
      else if v.back(t) then [EarlyBack(t)]
      else []
  }

  // Section i is the first body chapter.
  predicate FirstBody(kinds: seq<Kind>, i: int) {
    0 <= i < |kinds| && kinds[i] == Body && forall j :: 0 <= j < i ==> kinds[j] != Body
  }

  // Exactly the warnings due, pointing at the first body chapter.
  ghost predicate Warned(v: Vocabulary, spans: seq<Span>, kinds: seq<Kind>, warnings: seq<Warning>)
    requires |spans| == |kinds|
  {
    && (forall i :: FirstBody(kinds, i) ==> warnings == WarningsTo(v, spans, kinds, spans[i].title, |spans|))
    && ((forall i :: !FirstBody(kinds, i)) ==> warnings == [])
  }

  lemma {:induction false} WarningsSkip(
      v: Vocabulary, spans: seq<Span>, kinds: seq<Kind>, bodyStart: string, a: nat, b: nat)
    requires a <= b <= |spans| == |kinds|
    requires forall i :: a <= i < b ==> kinds[i] != Body
    ensures WarningsTo(v, spans, kinds, bodyStart, b) == WarningsTo(v, spans, kinds, bodyStart, a)
    decreases b
  {
    if a < b {
      WarningsSkip(v, spans, kinds, bodyStart, a, b - 1);
    }
  }

  method MarkDropped(v: Vocabulary, spans: seq<Span>, bookTitle: string, styledTitle: string)
    returns (found: seq<Option<Kind>>)
    ensures |found| == |spans|
    ensures forall i :: 0 <= i < |spans| ==>
      found[i] == if TitleDropped(v, spans, bookTitle, styledTitle) && i == 0 then Some(TitlePage)
                  else if v.contents(spans[i].title) then Some(Contents) else None
  {
    ghost var titled := TitleDropped(v, spans, bookTitle, styledTitle);
    found := seq(|spans|, _ => None);
    if |spans| > 0 {
      var first := v.norm(spans[0].title);
      if first != "" && (first == v.norm(bookTitle) || first == v.norm(styledTitle)) {
        var stub := IsTitleStub(spans[0].paras);
        if stub {
          found := found[0 := Some(TitlePage)];
        }
      }
    }
    for i := 0 to |spans|
      invariant |found| == |spans|
      invariant forall k :: 0 <= k < |spans| ==>
        found[k] == if titled && k == 0 then Some(TitlePage)
                    else if k < i && v.contents(spans[k].title) then Some(Contents) else None
    {
      if found[i].None? && v.contents(spans[i].title) {
        found := found[i := Some(Contents)];
      }
    }
  }

  method KeptIndices(v: Vocabulary, spans: seq<Span>, ghost titled: bool, found: seq<Option<Kind>>)
    returns (idx: seq<nat>)
    requires |found| == |spans|
    requires forall i :: 0 <= i < |spans| ==> (found[i].None? <==> Kept(v, spans, titled, i))
    ensures Indexed(v, spans, titled, idx)
  {
    idx := [];
    for i := 0 to |spans|
      invariant forall j :: 0 <= j < |idx| ==> idx[j] < i && found[idx[j]].None?
      invariant forall j, k :: 0 <= j < k < |idx| ==> idx[j] < idx[k]
      invariant forall k :: 0 <= k < i && found[k].None? ==> k in idx
    {
      if found[i].None? {
        idx := idx + [i];
      }
    }
  }

  method CountRuns(v: Vocabulary, spans: seq<Span>, idx: seq<nat>) returns (frontEnd: nat, backStart: nat)
    requires Increasing(idx, |spans|)
    ensures Runs(v, spans, idx, frontEnd, backStart)
  {
    frontEnd := 0;
    while frontEnd < |idx| && v.front(spans[idx[frontEnd]].title)
      invariant frontEnd <= |idx|
      invariant forall j :: 0 <= j < frontEnd ==> v.front(spans[idx[j]].title)
    {
      frontEnd := frontEnd + 1;
    }
    backStart := |idx|;
    while backStart > frontEnd && v.back(spans[idx[backStart - 1]].title)
      invariant frontEnd <= backStart <= |idx|
      invariant forall j :: backStart <= j < |idx| ==> v.back(spans[idx[j]].title)
    {
      backStart := backStart - 1;
    }
  }

  // The kinds the two runs give to the kept sections, and no body among the others.
  ghost predicate Given(kinds: seq<Kind>, idx: seq<nat>, frontEnd: nat, backStart: nat) {
    && Increasing(idx, |kinds|) && frontEnd <= backStart <= |idx|
    && (forall j :: 0 <= j < |idx| ==>
      kinds[idx[j]] == if j < frontEnd then Front else if j >= backStart then Back else Body)
    && (forall i :: 0 <= i < |kinds| && i !in idx ==> kinds[i] != Body)
  }

  // One past the last kept section among the first j.
  ghost function Reached(idx: seq<nat>, n: nat, j: nat): (r: nat)
    requires Increasing(idx, n) && j <= |idx|
    ensures r <= n
  {
    if j == 0 then 0 else idx[j - 1] + 1
  }

  lemma NoBodyBetween(kinds: seq<Kind>, idx: seq<nat>, frontEnd: nat, backStart: nat, j: nat)
    requires Given(kinds, idx, frontEnd, backStart) && j <= |idx|
    ensures forall i :: Reached(idx, |kinds|, j) <= i < (if j < |idx| then idx[j] else |kinds|) ==> kinds[i] != Body
  {
    forall i | Reached(idx, |kinds|, j) <= i < (if j < |idx| then idx[j] else |kinds|) ensures i !in idx {
      forall k | 0 <= k < |idx| ensures idx[k] != i {
        assert k < j ==> idx[k] <= idx[j - 1];
        assert j < k ==> idx[j] < idx[k];
      }
    }
  }

  lemma BodyStarts(kinds: seq<Kind>, idx: seq<nat>, frontEnd: nat, backStart: nat)
    requires Given(kinds, idx, frontEnd, backStart)
    ensures frontEnd < backStart ==> FirstBody(kinds, idx[frontEnd])
    ensures forall i :: FirstBody(kinds, i) ==> frontEnd < backStart && i == idx[frontEnd]
  {
    forall i | 0 <= i < |kinds| && kinds[i] == Body
      ensures frontEnd < backStart && idx[frontEnd] <= i
    {
      var k :| 0 <= k < |idx| && idx[k] == i;
      assert frontEnd <= k < backStart;
    }
  }

  // The kinds of the first j kept sections filled in.
  ghost predicate Filled(kinds: seq<Kind>, idx: seq<nat>, found0: seq<Option<Kind>>, found: seq<Option<Kind>>, j: nat)
    requires |found0| == |kinds| && Increasing(idx, |kinds|) && j <= |idx|
  {
    && |found| == |kinds|
    && (forall i :: 0 <= i < |kinds| && i !in idx ==> found[i] == found0[i])
    && (forall k :: 0 <= k < j ==> found[idx[k]] == Some(kinds[idx[k]]))
  }

  lemma FilledNext(
      kinds: seq<Kind>, idx: seq<nat>, found0: seq<Option<Kind>>, found: seq<Option<Kind>>, j: nat, kind: Kind)
    requires |found0| == |kinds| && Increasing(idx, |kinds|) && j < |idx|
    requires Filled(kinds, idx, found0, found, j) && kind == kinds[idx[j]]
    ensures Filled(kinds, idx, found0, found[idx[j] := Some(kind)], j + 1)
  {
  }

  // The warning of one more kept section.
  lemma WarningsNext(v: Vocabulary, spans: seq<Span>, kinds: seq<Kind>, start: string, idx: seq<nat>, f: nat, b: nat,
                     j: nat)
    requires |spans| == |kinds| && Given(kinds, idx, f, b) && j < |idx|
    ensures var t := spans[idx[j]].title;
      WarningsTo(v, spans, kinds, start, Reached(idx, |kinds|, j + 1)) ==
      WarningsTo(v, spans, kinds, start, Reached(idx, |kinds|, j)) +
      if j < f || j >= b then [] else if v.front(t) then [LateFront(t, start)]
      else if v.back(t) then [EarlyBack(t)] else []
  {
    NoBodyBetween(kinds, idx, f, b, j);
    WarningsSkip(v, spans, kinds, start, Reached(idx, |kinds|, j), idx[j]);
  }

  lemma WarningsEnd(v: Vocabulary, spans: seq<Span>, kinds: seq<Kind>, idx: seq<nat>, f: nat, b: nat, start: string,
                    warnings: seq<Warning>)
    requires |spans| == |kinds| && Given(kinds, idx, f, b)
    requires if f < b then start == spans[idx[f]].title else warnings == []
    requires warnings == WarningsTo(v, spans, kinds, start, Reached(idx, |kinds|, |idx|))
    ensures Warned(v, spans, kinds, warnings)
  {
    NoBodyBetween(kinds, idx, f, b, |idx|);
    WarningsSkip(v, spans, kinds, start, Reached(idx, |kinds|, |idx|), |spans|);
    BodyStarts(kinds, idx, f, b);
  }

  lemma AllFilled(kinds: seq<Kind>, idx: seq<nat>, found0: seq<Option<Kind>>, found: seq<Option<Kind>>)
    requires |found0| == |kinds| && Increasing(idx, |kinds|) && Filled(kinds, idx, found0, found, |idx|)
    requires forall i :: 0 <= i < |kinds| && i !in idx ==> found0[i] == Some(kinds[i])
    ensures forall i :: 0 <= i < |kinds| ==> found[i] == Some(kinds[i])
  {
    forall i | 0 <= i < |kinds| ensures found[i] == Some(kinds[i]) {
      assert i in idx ==> exists k :: 0 <= k < |idx| && idx[k] == i;
    }
  }

  // The last loop: kinds and warnings for the kept sections, in order.
  method FillKinds(v: Vocabulary, spans: seq<Span>, ghost kinds: seq<Kind>, found0: seq<Option<Kind>>,
      idx: seq<nat>, frontEnd: nat, backStart: nat)
    returns (found: seq<Option<Kind>>, warnings: seq<Warning>)
    requires |found0| == |spans| == |kinds| && Given(kinds, idx, frontEnd, backStart)
    requires forall i :: 0 <= i < |spans| && i !in idx ==> found0[i] == Some(kinds[i])
    ensures |found| == |spans| && forall i :: 0 <= i < |spans| ==> found[i] == Some(kinds[i])
    ensures Warned(v, spans, kinds, warnings)
  {
    found, warnings := found0, [];
    ghost var start := if frontEnd < backStart then spans[idx[frontEnd]].title else "";
    for j := 0 to |idx|
      invariant Filled(kinds, idx, found0, found, j)
      invariant warnings == WarningsTo(v, spans, kinds, start, Reached(idx, |kinds|, j))
      invariant frontEnd == backStart ==> warnings == []
    {
      var i := idx[j];
      var t := spans[i].title;
      WarningsNext(v, spans, kinds, start, idx, frontEnd, backStart, j);
      FilledNext(kinds, idx, found0, found, j, kinds[i]);
      if j < frontEnd {
        found := found[i := Some(Front)];
      } else if j >= backStart {
        found := found[i := Some(Back)];
      } else {
        found := found[i := Some(Body)];
        if v.front(t) {
          warnings := warnings + [LateFront(t, spans[idx[frontEnd]].title)];
        } else if v.back(t) {
          warnings := warnings + [EarlyBack(t)];
        }
      }
    }
    WarningsEnd(v, spans, kinds, idx, frontEnd, backStart, start, warnings);
    AllFilled(kinds, idx, found0, found);
  }

  lemma RunsAreGiven(v: Vocabulary, spans: seq<Span>, titled: bool, idx: seq<nat>, f: nat, b: nat)
    requires Indexed(v, spans, titled, idx) && Runs(v, spans, idx, f, b)
    ensures if |idx| > 0 && f == |idx| then Given(KindsOf(v, spans, titled), idx, 0, |idx|)
            else Given(KindsOf(v, spans, titled), idx, f, b)
  {
    forall j | 0 <= j < |idx|
      ensures KindsOf(v, spans, titled)[idx[j]] ==
              if f == |idx| then Body else if j < f then Front else if j >= b then Back else Body
    {
      RunsGiveKinds(v, spans, titled, idx, f, b, j);
    }
    forall i | 0 <= i < |spans| && i !in idx ensures KindsOf(v, spans, titled)[i] != Body {
      assert !Kept(v, spans, titled, i);
    }
  }

  /** The section repeats the book's title, as given or as styled, over at most three paragraphs and
      sixty words without a heading. */
  predicate OnlyTitle(v: Vocabulary, s: Span, bookTitle: string, styledTitle: string) {
    && v.norm(s.title) != ""
    && (v.norm(s.title) == v.norm(bookTitle) || v.norm(s.title) == v.norm(styledTitle))
    && |s.paras| <= 3 && WordsIn(s.paras) <= 60
    && forall i :: 0 <= i < |s.paras| ==> HeadingLevel(s.paras[i]) == 0
  }

  /** A body chapter that sounds like front matter gets a warning that names the first body chapter;
      one that sounds like back matter, and not like front matter, gets the other; no more are due. */
  ghost predicate Due(v: Vocabulary, spans: seq<Span>, kinds: seq<Kind>, w: Warning)
    requires |spans| == |kinds|
  {
    exists i :: 0 <= i < |kinds| && kinds[i] == Body && w.title == spans[i].title &&
      match w
      case LateFront(t, start) =>
        v.front(t) && exists b :: FirstBody(kinds, b) && start == spans[b].title
      case EarlyBack(t) => v.back(t) && !v.front(t)
  }

  // What is due among the first n, the body starting as told.
  ghost predicate DueBefore(v: Vocabulary, spans: seq<Span>, kinds: seq<Kind>, bodyStart: string, n: nat, w: Warning)
    requires n <= |spans| == |kinds|
  {
    exists i :: 0 <= i < n && kinds[i] == Body && w.title == spans[i].title &&
      match w
      case LateFront(t, start) => v.front(t) && start == bodyStart
      case EarlyBack(t) => v.back(t) && !v.front(t)
  }

  lemma {:induction false} WarningsAreDue(
      v: Vocabulary, spans: seq<Span>, kinds: seq<Kind>, bodyStart: string, n: nat, w: Warning)
    requires n <= |spans| == |kinds|
    ensures w in WarningsTo(v, spans, kinds, bodyStart, n) <==> DueBefore(v, spans, kinds, bodyStart, n, w)
  {
    if n > 0 {
      WarningsAreDue(v, spans, kinds, bodyStart, n - 1, w);
      DueOneMore(v, spans, kinds, bodyStart, n, w);
    }
  }

  lemma DueOneMore(v: Vocabulary, spans: seq<Span>, kinds: seq<Kind>, bodyStart: string, n: nat, w: Warning)
    requires 0 < n <= |spans| == |kinds|
    ensures DueBefore(v, spans, kinds, bodyStart, n, w) <==>
            DueBefore(v, spans, kinds, bodyStart, n - 1, w) ||
            (kinds[n - 1] == Body && w.title == spans[n - 1].title &&
             match w
             case LateFront(t, start) => v.front(t) && start == bodyStart
             case EarlyBack(t) => v.back(t) && !v.front(t))
  {
  }

  lemma {:induction false} FirstBodyAmong(kinds: seq<Kind>, i: nat) returns (b: nat)
    requires i < |kinds| && kinds[i] == Body
    ensures FirstBody(kinds, b)
    decreases i
  {
    b := i;
    if j :| 0 <= j < i && kinds[j] == Body {
      b := FirstBodyAmong(kinds, j);
    }
  }

  lemma WarnedMeans(v: Vocabulary, spans: seq<Span>, kinds: seq<Kind>, warnings: seq<Warning>)
    requires |spans| == |kinds| && Warned(v, spans, kinds, warnings)
    ensures forall w :: w in warnings <==> Due(v, spans, kinds, w)
  {
    if b :| FirstBody(kinds, b) {
      forall w ensures w in warnings <==> Due(v, spans, kinds, w) {
        WarningsAreDue(v, spans, kinds, spans[b].title, |spans|, w);
        assert forall c :: FirstBody(kinds, c) ==> c == b;
      }
    } else {
      forall i | 0 <= i < |kinds| ensures kinds[i] != Body {
        if kinds[i] == Body { var b := FirstBodyAmong(kinds, i); }
      }
    }
  }

  // Neither the title page nor a contents list.
  predicate SetInBook(kind: Kind) {
    kind != TitlePage && kind != Contents
  }

  ghost predicate NoBody(v: Vocabulary, spans: seq<Span>, kinds: seq<Kind>)
    requires |spans| == |kinds|
  {
    forall j :: 0 <= j < |kinds| && SetInBook(kinds[j]) ==> v.front(spans[j].title)
  }

  ghost predicate FrontRun(v: Vocabulary, spans: seq<Span>, kinds: seq<Kind>, i: int)
    requires |spans| == |kinds|
  {
    forall j :: 0 <= j < |kinds| && j <= i && SetInBook(kinds[j]) ==> v.front(spans[j].title)
  }

  ghost predicate BackRun(v: Vocabulary, spans: seq<Span>, kinds: seq<Kind>, i: int)
    requires |spans| == |kinds|
  {
    forall j :: 0 <= j < |kinds| && i <= j && SetInBook(kinds[j]) ==> v.back(spans[j].title)
  }

  /** Of the sections set, those up to which all sound like front matter are front matter, and of the
      others those from which on all sound like back matter are back matter; where all sound like front
      matter there is neither. */
  ghost predicate RunsSet(v: Vocabulary, spans: seq<Span>, kinds: seq<Kind>)
    requires |spans| == |kinds|
  {
    forall i :: 0 <= i < |kinds| && SetInBook(kinds[i]) ==>
      && (kinds[i] == Front <==> !NoBody(v, spans, kinds) && FrontRun(v, spans, kinds, i))
      && (kinds[i] == Back <==>
            !NoBody(v, spans, kinds) && !FrontRun(v, spans, kinds, i) && BackRun(v, spans, kinds, i))
  }

  lemma SetIsKept(v: Vocabulary, spans: seq<Span>, titled: bool, i: nat)
    requires i < |spans|
    ensures SetInBook(KindsOf(v, spans, titled)[i]) <==> Kept(v, spans, titled, i)
    ensures KindsOf(v, spans, titled)[i] == KindOf(v, spans, titled, i)
  {
  }

  lemma RunsAre(v: Vocabulary, spans: seq<Span>, titled: bool, i: nat)
    ensures var kinds := KindsOf(v, spans, titled);
      && (NoBody(v, spans, kinds) <==> AllFront(v, spans, titled))
      && (FrontRun(v, spans, kinds, i) <==> FrontTo(v, spans, titled, i))
      && (BackRun(v, spans, kinds, i) <==> BackFrom(v, spans, titled, i))
  {
    var kinds := KindsOf(v, spans, titled);
    forall j | 0 <= j < |kinds| ensures SetInBook(kinds[j]) <==> Kept(v, spans, titled, j) {
      SetIsKept(v, spans, titled, j);
    }
  }

  lemma RunsAreSet(v: Vocabulary, spans: seq<Span>, titled: bool)
    ensures RunsSet(v, spans, KindsOf(v, spans, titled))
  {
    var kinds := KindsOf(v, spans, titled);
    forall i | 0 <= i < |kinds| && SetInBook(kinds[i])
      ensures kinds[i] == Front <==> !NoBody(v, spans, kinds) && FrontRun(v, spans, kinds, i)
      ensures kinds[i] == Back <==>
        !NoBody(v, spans, kinds) && !FrontRun(v, spans, kinds, i) && BackRun(v, spans, kinds, i)
    {
      SetIsKept(v, spans, titled, i);
      RunsAre(v, spans, titled, i);
    }
  }

  /** Levels are told by the style: "heading1" to "heading9", anything else is no heading. */
  lemma HeadingLevelIsStyled(p: Para)
    ensures forall d: char :: '1' <= d <= '9' && p.style == "heading" + [d] ==> HeadingLevel(p) == d as int - '0' as int
    ensures HeadingLevel(p) != 0 <==> exists d: char :: '1' <= d <= '9' && p.style == "heading" + [d]
  {
    if HeadingLevel(p) != 0 {
      assert p.style == "heading" + [p.style[7]];
    }
    forall d: char | '1' <= d <= '9' && p.style == "heading" + [d]
      ensures HeadingLevel(p) == d as int - '0' as int
    {
      assert p.style[..7] == "heading" && p.style[7] == d;
    }
  }

  lemma KindsSay(v: Vocabulary, spans: seq<Span>, bookTitle: string, styledTitle: string)
    ensures var kinds := KindsOf(v, spans, TitleDropped(v, spans, bookTitle, styledTitle));
      forall i :: 0 <= i < |kinds| ==>
        && (kinds[i] == TitlePage <==> i == 0 && OnlyTitle(v, spans[0], bookTitle, styledTitle))
        && (kinds[i] == Contents <==> kinds[i] != TitlePage && v.contents(spans[i].title))
  {
  }

  method Classify(v: Vocabulary, spans: seq<Span>, bookTitle: string, styledTitle: string)
    returns (kinds: seq<Kind>, warnings: seq<Warning>)
    ensures |kinds| == |spans| && kinds == KindsOf(v, spans, TitleDropped(v, spans, bookTitle, styledTitle))
    ensures Warned(v, spans, kinds, warnings)
  {
    ghost var titled := TitleDropped(v, spans, bookTitle, styledTitle);
    var found := MarkDropped(v, spans, bookTitle, styledTitle);
    var idx := KeptIndices(v, spans, titled, found);
    var frontEnd, backStart := CountRuns(v, spans, idx);
    RunsAreGiven(v, spans, titled, idx, frontEnd, backStart);
    if |idx| > 0 && frontEnd == |idx| {
      frontEnd, backStart := 0, |idx|;
    }
    ghost var ks := KindsOf(v, spans, titled);
    found, warnings := FillKinds(v, spans, ks, found, idx, frontEnd, backStart);
    kinds := seq(|found|, i requires 0 <= i < |found| && found[i].Some? => found[i].value);
    assert kinds == ks;
  }

  /** The classifier's loops give every section the kind told from the titles around it. */
  method ClassifySections(v: Vocabulary, spans: seq<Span>, bookTitle: string, styledTitle: string)
    returns (kinds: seq<Kind>, warnings: seq<Warning>)
    ensures |kinds| == |spans| && kinds == KindsOf(v, spans, TitleDropped(v, spans, bookTitle, styledTitle))
    ensures Warned(v, spans, kinds, warnings)
    ensures forall i :: 0 <= i < |kinds| ==>
      (kinds[i] == TitlePage <==> i == 0 && OnlyTitle(v, spans[0], bookTitle, styledTitle))
    ensures forall i :: 0 <= i < |kinds| ==>
      (kinds[i] == Contents <==> kinds[i] != TitlePage && v.contents(spans[i].title))
    ensures RunsSet(v, spans, kinds)
    ensures forall w :: w in warnings <==> Due(v, spans, kinds, w)
  {
    kinds, warnings := Classify(v, spans, bookTitle, styledTitle);
    KindsSay(v, spans, bookTitle, styledTitle);
    RunsAreSet(v, spans, TitleDropped(v, spans, bookTitle, styledTitle));
    WarnedMeans(v, spans, kinds, warnings);
  }
}
