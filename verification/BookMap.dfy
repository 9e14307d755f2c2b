/** The map of a manuscript into front matter, body and back matter. */
module BookMap {
  import opened BookBlocks
  import opened BookSections
  import opened DocxReader
  import Folds
  import opened Options
  import opened Words

  datatype Map = Map(
    title: string, subtitle: string, untitled: seq<Untitled>, sections: seq<Section>,
    warnings: seq<Warning>, missing: seq<string>, words: nat, images: nat, noHeading: bool)

  datatype Input = Input(
    paras: seq<Para>, declared: Option<seq<string>>, bookTitle: string, author: string)

  // ---- Title paragraphs ----

  predicate IsTitle(p: Para) {
    p.style == "title" || p.style == "subtitle"
  }

  function BodyOf(ps: seq<Para>): seq<Para> {
    if |ps| == 0 then [] else
      BodyOf(ps[..|ps| - 1]) + if IsTitle(ps[|ps| - 1]) then [] else [ps[|ps| - 1]]
  }

  function TitleCount(ps: seq<Para>): nat {
    if |ps| == 0 then 0 else TitleCount(ps[..|ps| - 1]) + if IsTitle(ps[|ps| - 1]) then 1 else 0
  }

  // The texts in a style, joined with spaces.
  function StyledText(ps: seq<Para>, style: string): string {
    if |ps| == 0 then "" else
      Appended(StyledText(ps[..|ps| - 1], style), ps[|ps| - 1], style)
  }

  function Appended(s: string, p: Para, style: string): string {
    if p.style != style then s else if s == "" then p.text else s + " " + p.text
  }

  function ImageCount(ps: seq<Para>): nat {
    if |ps| == 0 then 0 else ImageCount(ps[..|ps| - 1]) + if ps[|ps| - 1].image then 1 else 0
  }

  lemma NextPara(ps: seq<Para>, p: Para)
    ensures BodyOf(ps + [p]) == if p.style == "title" || p.style == "subtitle" then BodyOf(ps) else BodyOf(ps) + [p]
  {
    assert (ps + [p])[..|ps|] == ps;
  }

  lemma NextStyled(ps: seq<Para>, p: Para, style: string)
    ensures p.style != style ==> StyledText(ps + [p], style) == StyledText(ps, style)
    ensures p.style == style ==>
      StyledText(ps + [p], style) ==
      if StyledText(ps, style) == "" then p.text else StyledText(ps, style) + " " + p.text
  {
    assert (ps + [p])[..|ps|] == ps;
  }

  lemma NextCounts(body: seq<Para>, p: Para)
    ensures ImageCount(body + [p]) == ImageCount(body) + if p.image then 1 else 0
    ensures WordsIn(body + [p]) == WordsIn(body) + WordCount(p.text)
  {
    assert (body + [p])[..|body|] == body;
  }

  // What the loop over lines holds after ps.
  predicate Lines(ps: seq<Para>, body: seq<Para>, title: string, subtitle: string, words: nat, images: nat) {
    && body == BodyOf(ps) && title == StyledText(ps, "title") && subtitle == StyledText(ps, "subtitle")
    && words == WordsIn(body) && images == ImageCount(body)
  }

  function Joining(s: string, text: string): string {
    if s == "" then text else s + " " + text
  }

  lemma TitleNext(ps: seq<Para>, p: Para, body: seq<Para>, title: string, subtitle: string, words: nat, images: nat)
    requires Lines(ps, body, title, subtitle, words, images)
    ensures p.style == "title" ==> Lines(ps + [p], body, Joining(title, p.text), subtitle, words, images)
    ensures p.style == "subtitle" ==> Lines(ps + [p], body, title, Joining(subtitle, p.text), words, images)
  {
    NextPara(ps, p);
    NextStyled(ps, p, "title");
    NextStyled(ps, p, "subtitle");
  }

  lemma LineNext(ps: seq<Para>, p: Para, body: seq<Para>, title: string, subtitle: string, words: nat, images: nat)
    requires Lines(ps, body, title, subtitle, words, images) && p.style != "title" && p.style != "subtitle"
    ensures Lines(ps + [p], body + [p], title, subtitle, words + WordCount(p.text),
                  images + if p.image then 1 else 0)
  {
    NextPara(ps, p);
    NextStyled(ps, p, "title");
    NextStyled(ps, p, "subtitle");
    NextCounts(body, p);
  }

  method DropTitles(ps: seq<Para>)
    returns (body: seq<Para>, title: string, subtitle: string, words: nat, images: nat)
    ensures body == BodyOf(ps) && title == StyledText(ps, "title") && subtitle == StyledText(ps, "subtitle")
    ensures words == WordsIn(body) && images == ImageCount(body)
  {
    body, title, subtitle, words, images := [], "", "", 0, 0;
    for i := 0 to |ps|
      invariant Lines(ps[..i], body, title, subtitle, words, images)
    {
      var p := ps[i];
      assert ps[..i + 1] == ps[..i] + [p];
      if p.style == "title" || p.style == "subtitle" {
        TitleNext(ps[..i], p, body, title, subtitle, words, images);
        if p.style == "title" {
          title := if title == "" then p.text else title + " " + p.text;
        } else {
          subtitle := if subtitle == "" then p.text else subtitle + " " + p.text;
        }
      } else {
        LineNext(ps[..i], p, body, title, subtitle, words, images);
        body := body + [p];
        words := words + WordCount(p.text);
        if p.image {
          images := images + 1;
        }
      }
    }
    Folds.WholeSlice(ps);
  }

  predicate FirstH1(body: seq<Para>, at: Option<nat>) {
    match at
    case None => forall i :: 0 <= i < |body| ==> !IsH1(body[i])
    case Some(k) => k < |body| && IsH1(body[k]) && forall i :: 0 <= i < k ==> !IsH1(body[i])
  }

  method FindFirstH1(body: seq<Para>) returns (at: Option<nat>)
    ensures FirstH1(body, at)
  {
    for i := 0 to |body|
      invariant forall k :: 0 <= k < i ==> !IsH1(body[k])
    {
      if IsH1(body[i]) {
        return Some(i);
      }
    }
    return None;
  }

  // ---- Sections and missing pieces ----

  function SectionOf(v: Vocabulary, spans: seq<Span>, titled: bool, i: nat): Section
    requires i < |spans|
  {
    var s := spans[i];
    Section.Section(s.title, KindOf(v, spans, titled, i), |s.paras|, WordCount(s.title) + WordsIn(s.paras))
  }

  function SectionsOf(v: Vocabulary, spans: seq<Span>, titled: bool): (r: seq<Section>)
    ensures |r| == |spans|
  {
    seq(|spans|, i requires 0 <= i < |spans| => SectionOf(v, spans, titled, i))
  }

  method CountSections(v: Vocabulary, spans: seq<Span>, kinds: seq<Kind>, ghost titled: bool)
    returns (sections: seq<Section>)
    requires kinds == KindsOf(v, spans, titled)
    ensures sections == SectionsOf(v, spans, titled)
  {
    sections := [];
    for i := 0 to |spans|
      invariant sections == SectionsOf(v, spans, titled)[..i]
    {
      var words := WordCount(spans[i].title);
      var ps := spans[i].paras;
      for k := 0 to |ps|
        invariant words == WordCount(spans[i].title) + WordsIn(ps[..k])
      {
        assert ps[..k + 1][..k] == ps[..k];
        words := words + WordCount(ps[k].text);
      }
      assert ps[..|ps|] == ps;
      sections := sections + [Section.Section(spans[i].title, kinds[i], |ps|, words)];
    }
  }

  predicate NamesKept(us: seq<Untitled>, name: string) {
    exists i :: 0 <= i < |us| && !us[i].drop && us[i].name == name
  }

  function MissingNames(declared: seq<string>, us: seq<Untitled>): seq<string> {
    if |declared| == 0 then [] else
      var n := |declared| - 1;
      MissingNames(declared[..n], us) + if NamesKept(us, declared[n]) then [] else [declared[n]]
  }

  method FindMissing(declared: seq<string>, us: seq<Untitled>) returns (missing: seq<string>)
    ensures missing == MissingNames(declared, us)
  {
    missing := [];
    for i := 0 to |declared|
      invariant missing == MissingNames(declared[..i], us)
    {
      assert declared[..i + 1][..i] == declared[..i];
      var found := false;
      for k := 0 to |us|
        invariant found == NamesKept(us[..k], declared[i])
      {
        KeptNext(us, k, declared[i]);
        if !us[k].drop {
          found := found || us[k].name == declared[i];
        }
      }
      assert us[..|us|] == us;
      if !found {
        missing := missing + [declared[i]];
      }
    }
    assert declared[..|declared|] == declared;
  }

  lemma KeptNext(us: seq<Untitled>, k: nat, name: string)
    requires k < |us|
    ensures NamesKept(us[..k + 1], name) <==> NamesKept(us[..k], name) || (!us[k].drop && us[k].name == name)
  {
    if NamesKept(us[..k], name) {
      var i :| 0 <= i < k && !us[..k][i].drop && us[..k][i].name == name;
      assert us[..k + 1][i] == us[..k][i];
    }
    assert us[..k + 1][k] == us[k];
    if NamesKept(us[..k + 1], name) {
      var i :| 0 <= i < k + 1 && !us[..k + 1][i].drop && us[..k + 1][i].name == name;
      assert i < k ==> us[..k][i] == us[..k + 1][i];
    }
  }

  // ---- The map ----

  function Declared(x: Input): seq<string> {
    if x.declared.Some? then x.declared.value else []
  }

  /** What the classifier must return for a manuscript whose first Heading 1 stands at `at` in its body. */
  ghost predicate IsMapOf(v: Vocabulary, x: Input, at: Option<nat>, bs: seq<Block>, m: Map) {
    var body := BodyOf(x.paras);
    && FirstH1(body, at)
    && m.title == StyledText(x.paras, "title") && m.subtitle == StyledText(x.paras, "subtitle")
    && m.words == WordsIn(body) && m.images == ImageCount(body)
    && m.noHeading == at.None?
    && match at
       case None => m.untitled == [] && m.sections == [] && m.warnings == [] && m.missing == []
       case Some(k) =>
         var spans := Spans(body[k..]);
         var titled := TitleDropped(v, spans, x.bookTitle, m.title);
         && Pieces(v, x.author, body[..k], bs) && Marked(v, x.author, bs)
         && m.untitled == Named(bs, Declared(x))
         && m.missing == MissingNames(Declared(x), m.untitled)
         && m.sections == SectionsOf(v, spans, titled)
         && Warned(v, spans, KindsOf(v, spans, titled), m.warnings)
  }

  method BuildBookMap(v: Vocabulary, x: Input)
    returns (m: Map, empty: bool, ghost at: Option<nat>, ghost bs: seq<Block>)
    ensures IsMapOf(v, x, at, bs, m)
    ensures empty <==> KeptWords(m) == 0
  {
    var body, title, subtitle, words, images := DropTitles(x.paras);
    var first := FindFirstH1(body);
    at, bs := first, [];
    if first.None? {
      m := Map(title, subtitle, [], [], [], [], words, images, true);
    } else {
      var k := first.value;
      var blocks := CutBlocks(v, x.author, body[..k]);
      bs := blocks;
      var declared := Declared(x);
      var untitled := NameBlocks(blocks, declared);
      var missing := FindMissing(declared, untitled);
      var spans := CutSpans(body[k..]);
      var kinds, warnings := ClassifySections(v, spans, x.bookTitle, title);
      var sections := CountSections(v, spans, kinds, TitleDropped(v, spans, x.bookTitle, title));
      m := Map(title, subtitle, untitled, sections, warnings, missing, words, images, false);
    }
    var kept := CountKeptWords(m);
    empty := kept == 0;
  }

  // ---- Words kept ----

  predicate Dropped(s: Section) {
    s.kind == TitlePage || s.kind == Contents
  }

  function SectionWords(ss: seq<Section>, dropped: bool): nat {
    if |ss| == 0 then 0 else
      SectionWords(ss[..|ss| - 1], dropped) + if Dropped(ss[|ss| - 1]) == dropped then ss[|ss| - 1].words else 0
  }

  function KeptWords(m: Map): nat {
    if |m.sections| == 0 then m.words else SectionWords(m.sections, false)
  }

  method CountKeptWords(m: Map) returns (n: nat)
    ensures n == KeptWords(m)
  {
    if |m.sections| == 0 {
      return m.words;
    }
    n := 0;
    for i := 0 to |m.sections|
      invariant n == SectionWords(m.sections[..i], false)
    {
      assert m.sections[..i + 1][..i] == m.sections[..i];
      if !Dropped(m.sections[i]) {
        n := n + m.sections[i].words;
      }
    }
    assert m.sections[..|m.sections|] == m.sections;
  }

  function SpanWords(spans: seq<Span>): nat {
    if |spans| == 0 then 0 else
      SpanWords(spans[..|spans| - 1]) + WordCount(spans[|spans| - 1].title) + WordsIn(spans[|spans| - 1].paras)
  }

  lemma {:induction false} CutKeepsWords(ps: seq<Para>)
    requires Headed(ps)
    ensures SpanWords(Spans(ps)) == WordsIn(ps)
  {
    if |ps| > 0 {
      var n := |ps| - 1;
      CutKeepsWords(ps[..n]);
      var s := Spans(ps[..n]);
      if IsH1(ps[n]) {
        TrimKeepsWords(ps[n].text);
        assert (s + [Span(Trim(ps[n].text), [])])[..|s|] == s;
      } else {
        var t := Spans(ps);
        assert t[..|s| - 1] == s[..|s| - 1];
        var under := s[|s| - 1].paras;
        assert (under + [ps[n]])[..|under|] == under;
      }
    }
  }

  lemma {:induction false} SectionsKeepWords(v: Vocabulary, spans: seq<Span>, titled: bool, n: nat)
    requires n <= |spans|
    ensures SectionWords(SectionsOf(v, spans, titled)[..n], false) +
            SectionWords(SectionsOf(v, spans, titled)[..n], true)
            == SpanWords(spans[..n])
  {
    if n > 0 {
      SectionsKeepWords(v, spans, titled, n - 1);
      var ss := SectionsOf(v, spans, titled);
      assert ss[..n][..n - 1] == ss[..n - 1];
      assert spans[..n][..n - 1] == spans[..n - 1];
    }
  }

  lemma RestWords(v: Vocabulary, rest: seq<Para>, titled: bool)
    requires Headed(rest)
    ensures SectionWords(SectionsOf(v, Spans(rest), titled), false) +
            SectionWords(SectionsOf(v, Spans(rest), titled), true) == WordsIn(rest)
  {
    var spans := Spans(rest);
    CutKeepsWords(rest);
    SectionsKeepWords(v, spans, titled, |spans|);
    Folds.WholeSlice(spans);
    Folds.WholeSlice(SectionsOf(v, spans, titled));
  }

  lemma BodyWords(body: seq<Para>, k: nat)
    requires k <= |body|
    ensures WordsIn(body) == WordsIn(body[..k]) + WordsIn(body[k..])
  {
    Folds.TakeDrop(body, k);
    WordsConcat(body[..k], body[k..]);
  }

  /** Every word is kept, stands before the first heading, or is in a dropped section. */
  lemma WordsAccounted(v: Vocabulary, x: Input, at: Option<nat>, bs: seq<Block>, m: Map)
    requires IsMapOf(v, x, at, bs, m)
    ensures at.None? ==> KeptWords(m) == m.words
    ensures at.Some? ==>
      m.words == KeptWords(m) + WordsIn(BodyOf(x.paras)[..at.value]) + SectionWords(m.sections, true)
  {
    if at.Some? {
      var rest := BodyOf(x.paras)[at.value..];
      RestWords(v, rest, TitleDropped(v, Spans(rest), x.bookTitle, m.title));
      BodyWords(BodyOf(x.paras), at.value);
    }
  }

  // ---- Paragraphs counted ----

  function UntitledParas(us: seq<Untitled>): nat {
    if |us| == 0 then 0 else UntitledParas(us[..|us| - 1]) + us[|us| - 1].paras
  }

  function SectionParas(ss: seq<Section>): nat {
    if |ss| == 0 then 0 else SectionParas(ss[..|ss| - 1]) + 1 + ss[|ss| - 1].paras
  }

  lemma {:induction false} TitlesCounted(ps: seq<Para>)
    ensures |BodyOf(ps)| + TitleCount(ps) == |ps|
  {
    if |ps| > 0 {
      TitlesCounted(ps[..|ps| - 1]);
    }
  }

  lemma {:induction false} BlocksCounted(bs: seq<Block>, declared: seq<string>, n: nat)
    requires n <= |bs|
    ensures UntitledParas(Named(bs, declared)[..n]) == |Joined(bs[..n])|
  {
    if n > 0 {
      BlocksCounted(bs, declared, n - 1);
      assert Named(bs, declared)[..n][..n - 1] == Named(bs, declared)[..n - 1];
      assert bs[..n][..n - 1] == bs[..n - 1];
    }
  }

  lemma {:induction false} SpansCounted(v: Vocabulary, spans: seq<Span>, titled: bool, hs: seq<Para>, n: nat)
    requires n <= |spans| == |hs|
    ensures SectionParas(SectionsOf(v, spans, titled)[..n]) == |Rebuilt(hs[..n], spans[..n])|
  {
    if n > 0 {
      SpansCounted(v, spans, titled, hs, n - 1);
      var ss := SectionsOf(v, spans, titled);
      assert ss[..n][..n - 1] == ss[..n - 1];
      assert spans[..n][..n - 1] == spans[..n - 1] && hs[..n][..n - 1] == hs[..n - 1];
    }
  }

  /** Under a first heading, every paragraph is counted exactly once, title lines apart. */
  lemma ParagraphsAccounted(v: Vocabulary, x: Input, at: Option<nat>, bs: seq<Block>, m: Map)
    requires IsMapOf(v, x, at, bs, m) && at.Some?
    ensures UntitledParas(m.untitled) + SectionParas(m.sections) + TitleCount(x.paras) == |x.paras|
  {
    TitlesCounted(x.paras);
    UntitledCounted(v, x, at, bs, m);
    SectionsCounted(v, x, at, bs, m);
  }

  lemma UntitledCounted(v: Vocabulary, x: Input, at: Option<nat>, bs: seq<Block>, m: Map)
    requires IsMapOf(v, x, at, bs, m) && at.Some?
    ensures UntitledParas(m.untitled) == at.value
  {
    BlocksCounted(bs, Declared(x), |bs|);
    assert bs[..|bs|] == bs && m.untitled[..|bs|] == m.untitled;
  }

  lemma SectionsCounted(v: Vocabulary, x: Input, at: Option<nat>, bs: seq<Block>, m: Map)
    requires IsMapOf(v, x, at, bs, m) && at.Some?
    ensures SectionParas(m.sections) == |BodyOf(x.paras)| - at.value
  {
    var rest := BodyOf(x.paras)[at.value..];
    RestCounted(v, rest, TitleDropped(v, Spans(rest), x.bookTitle, m.title));
  }

  lemma RestCounted(v: Vocabulary, rest: seq<Para>, titled: bool)
    requires Headed(rest)
    ensures SectionParas(SectionsOf(v, Spans(rest), titled)) == |rest|
  {
    var spans, hs := Spans(rest), H1s(rest);
    CutsAtHeadings(rest);
    SpansCounted(v, spans, titled, hs, |spans|);
    Folds.WholeSlice(spans);
    Folds.WholeSlice(hs);
    Folds.WholeSlice(SectionsOf(v, spans, titled));
  }

  // ---- Kinds in a map ----

  /** Sections that are set run front, body, back; only the first can go as a title page, over a stub. */
  lemma SectionsInOrder(v: Vocabulary, x: Input, at: Option<nat>, bs: seq<Block>, m: Map)
    requires IsMapOf(v, x, at, bs, m)
    ensures forall i, j :: 0 <= i <= j < |m.sections| && !Dropped(m.sections[i]) && !Dropped(m.sections[j]) ==>
      Rank(m.sections[i].kind) <= Rank(m.sections[j].kind)
    ensures forall i :: 0 <= i < |m.sections| && m.sections[i].kind == TitlePage ==>
      i == 0 && m.sections[i].paras <= STUB_PARAS &&
      m.sections[i].words <= WordCount(m.sections[i].title) + STUB_WORDS
  {
    if at.Some? {
      var spans := Spans(BodyOf(x.paras)[at.value..]);
      var titled := TitleDropped(v, spans, x.bookTitle, m.title);
      forall i, j | 0 <= i <= j < |m.sections| && !Dropped(m.sections[i]) && !Dropped(m.sections[j])
        ensures Rank(m.sections[i].kind) <= Rank(m.sections[j].kind)
      {
        assert m.sections[i] == SectionOf(v, spans, titled, i) && m.sections[j] == SectionOf(v, spans, titled, j);
        FrontBodyBack(v, spans, titled, i, j);
      }
      forall i | 0 <= i < |m.sections| && m.sections[i].kind == TitlePage
        ensures i == 0 && titled && m.sections[i] == SectionOf(v, spans, titled, i)
      {
        assert m.sections[i] == SectionOf(v, spans, titled, i);
      }
    }
  }

  // ---- Typed contents ----

  function Without<T>(s: seq<T>, i: nat): seq<T>
    requires i < |s|
  {
    s[..i] + s[i + 1..]
  }

  // Where section j of the shortened list came from.
  function Origin(j: nat, k: nat): nat {
    if j < k then j else j + 1
  }

  lemma KeptWithout(v: Vocabulary, spans: seq<Span>, titled: bool, k: nat, j: nat)
    requires 0 < k < |spans| && j < |spans| - 1
    ensures Without(spans, k)[j] == spans[Origin(j, k)]
    ensures Kept(v, Without(spans, k), titled, j) <==> Kept(v, spans, titled, Origin(j, k))
  {
  }

  // The kept titles that satisfy a test are the same before and after.
  lemma TestsWithout(v: Vocabulary, spans: seq<Span>, titled: bool, k: nat)
    requires 0 < k < |spans| && v.contents(spans[k].title)
    ensures forall j :: 0 <= j < |spans| - 1 ==>
      Without(spans, k)[j] == spans[Origin(j, k)] &&
      (Kept(v, Without(spans, k), titled, j) <==> Kept(v, spans, titled, Origin(j, k)))
    ensures forall i :: Kept(v, spans, titled, i) ==> i != k && i == Origin(if i < k then i else i - 1, k)
  {
    forall j | 0 <= j < |spans| - 1
      ensures Without(spans, k)[j] == spans[Origin(j, k)]
      ensures Kept(v, Without(spans, k), titled, j) <==> Kept(v, spans, titled, Origin(j, k))
    {
      KeptWithout(v, spans, titled, k, j);
    }
  }

  lemma AllFrontWithout(v: Vocabulary, spans: seq<Span>, titled: bool, k: nat)
    requires 0 < k < |spans| && v.contents(spans[k].title)
    ensures AllFront(v, Without(spans, k), titled) <==> AllFront(v, spans, titled)
  {
    TestsWithout(v, spans, titled, k);
    if AllFront(v, Without(spans, k), titled) {
      forall i | 0 <= i < |spans| && Kept(v, spans, titled, i) ensures v.front(spans[i].title) {
        assert Kept(v, Without(spans, k), titled, if i < k then i else i - 1);
      }
    }
  }

  lemma FrontToWithout(v: Vocabulary, spans: seq<Span>, titled: bool, k: nat, j: nat)
    requires 0 < k < |spans| && v.contents(spans[k].title) && j < |spans| - 1
    ensures FrontTo(v, Without(spans, k), titled, j) <==> FrontTo(v, spans, titled, Origin(j, k))
  {
    TestsWithout(v, spans, titled, k);
    if FrontTo(v, Without(spans, k), titled, j) {
      forall i | 0 <= i < |spans| && Kept(v, spans, titled, i) && i <= Origin(j, k)
        ensures v.front(spans[i].title)
      {
        assert Kept(v, Without(spans, k), titled, if i < k then i else i - 1);
      }
    }
  }

  lemma BackFromWithout(v: Vocabulary, spans: seq<Span>, titled: bool, k: nat, j: nat)
    requires 0 < k < |spans| && v.contents(spans[k].title) && j < |spans| - 1
    ensures BackFrom(v, Without(spans, k), titled, j) <==> BackFrom(v, spans, titled, Origin(j, k))
  {
    TestsWithout(v, spans, titled, k);
    if BackFrom(v, Without(spans, k), titled, j) {
      forall i | 0 <= i < |spans| && Kept(v, spans, titled, i) && Origin(j, k) <= i
        ensures v.back(spans[i].title)
      {
        assert Kept(v, Without(spans, k), titled, if i < k then i else i - 1);
      }
    }
  }

  /** Taking a typed contents section out of a manuscript leaves every other section as it was. */
  lemma ContentsCanGo(v: Vocabulary, spans: seq<Span>, titled: bool, k: nat)
    requires 0 < k < |spans| && v.contents(spans[k].title)
    ensures SectionsOf(v, Without(spans, k), titled) == Without(SectionsOf(v, spans, titled), k)
  {
    var t := Without(spans, k);
    forall j | 0 <= j < |t|
      ensures SectionsOf(v, t, titled)[j] == SectionsOf(v, spans, titled)[Origin(j, k)]
    {
      KeptWithout(v, spans, titled, k, j);
      AllFrontWithout(v, spans, titled, k);
      FrontToWithout(v, spans, titled, k, j);
      BackFromWithout(v, spans, titled, k, j);
    }
  }

  // All contents sections from n on, gone.
  function Cleared(v: Vocabulary, spans: seq<Span>, n: nat): (r: seq<Span>)
    decreases |spans| - n
  {
    if n >= |spans| then spans
    else if v.contents(spans[n].title) then Cleared(v, Without(spans, n), n)
    else Cleared(v, spans, n + 1)
  }

  function ClearedSections(ss: seq<Section>, n: nat): (r: seq<Section>)
    decreases |ss| - n
  {
    if n >= |ss| then ss
    else if ss[n].kind == Contents then ClearedSections(Without(ss, n), n)
    else ClearedSections(ss, n + 1)
  }

  lemma {:induction false} SectionWordsConcat(a: seq<Section>, b: seq<Section>, dropped: bool)
    ensures SectionWords(a + b, dropped) == SectionWords(a, dropped) + SectionWords(b, dropped)
  {
    if |b| == 0 {
      assert a + b == a;
    } else {
      SectionWordsConcat(a, b[..|b| - 1], dropped);
      assert (a + b)[..|a + b| - 1] == a + b[..|b| - 1];
    }
  }

  lemma DroppedAddsNothing(ss: seq<Section>, k: nat)
    requires k < |ss| && Dropped(ss[k])
    ensures SectionWords(Without(ss, k), false) == SectionWords(ss, false)
  {
    assert ss == ss[..k] + [ss[k]] + ss[k + 1..];
    assert [ss[k]][..0] == [];
    SectionWordsConcat(ss[..k] + [ss[k]], ss[k + 1..], false);
    SectionWordsConcat(ss[..k], [ss[k]], false);
    SectionWordsConcat(ss[..k], ss[k + 1..], false);
  }

  /**
   * With every typed contents section gone, the first heading apart, the other sections keep
   * their kinds and counts, and the words kept are the same.
   */
  lemma {:induction false} ClearedSpans(v: Vocabulary, spans: seq<Span>, titled: bool, n: nat)
    requires 0 < n
    ensures SectionsOf(v, Cleared(v, spans, n), titled) == ClearedSections(SectionsOf(v, spans, titled), n)
    ensures SectionWords(SectionsOf(v, Cleared(v, spans, n), titled), false) ==
            SectionWords(SectionsOf(v, spans, titled), false)
    decreases |spans| - n
  {
    if n < |spans| {
      if v.contents(spans[n].title) {
        ContentsCanGo(v, spans, titled, n);
        DroppedAddsNothing(SectionsOf(v, spans, titled), n);
        ClearedSpans(v, Without(spans, n), titled, n);
      } else {
        ClearedSpans(v, spans, titled, n + 1);
      }
    }
  }

  lemma {:induction false} ClearedHasNone(v: Vocabulary, spans: seq<Span>, n: nat)
    ensures forall i :: n <= i < |Cleared(v, spans, n)| ==> !v.contents(Cleared(v, spans, n)[i].title)
    ensures n <= |spans| ==> n <= |Cleared(v, spans, n)| && Cleared(v, spans, n)[..n] == spans[..n]
    decreases |spans| - n
  {
    if n < |spans| {
      if v.contents(spans[n].title) {
        ClearedHasNone(v, Without(spans, n), n);
      } else {
        ClearedHasNone(v, spans, n + 1);
        assert Cleared(v, spans, n)[n] == spans[..n + 1][n];
        assert Cleared(v, spans, n)[..n + 1][..n] == spans[..n + 1][..n];
      }
    }
  }

  /** In the manuscript: one section's paragraphs deleted is one section gone. */
  lemma DeletedSection(before: seq<Para>, heading: Para, under: seq<Para>, behind: seq<Para>)
    requires Headed(before) && Headed(behind) && IsH1(heading)
    requires forall i :: 0 <= i < |under| ==> !IsH1(under[i])
    ensures Headed(before + behind) && Headed(before + ([heading] + under) + behind)
    ensures |Spans(before)| < |Spans(before + ([heading] + under) + behind)|
    ensures Spans(before + behind) == Without(Spans(before + ([heading] + under) + behind), |Spans(before)|)
  {
    OneSpan(heading, under);
    SpansConcat(before, [heading] + under);
    SpansConcat(before + ([heading] + under), behind);
    SpansConcat(before, behind);
  }

  lemma {:induction false} OneSpan(heading: Para, under: seq<Para>)
    requires IsH1(heading) && forall i :: 0 <= i < |under| ==> !IsH1(under[i])
    ensures Spans([heading] + under) == [Span(Trim(heading.text), under)]
  {
    var title := Trim(heading.text);
    if |under| == 0 {
      SpansNext([], heading);
      assert [heading] + under == [] + [heading];
    } else {
      var rest, last := under[..|under| - 1], under[|under| - 1];
      OneSpan(heading, rest);
      assert [heading] + under == [heading] + rest + [last];
      assert Headed([heading] + rest + [last]);
      SpansNext([heading] + rest, last);
      assert Longer([Span(title, rest)], last) == [Span(title, rest + [last])];
      assert under == rest + [last];
    }
  }

  // ---- What a map says, in the manuscript's own terms ----

  lemma {:induction false} MissingAre(declared: seq<string>, us: seq<Untitled>, name: string)
    ensures name in MissingNames(declared, us) <==>
            name in declared && forall i :: 0 <= i < |us| && us[i].name == name ==> us[i].drop
  {
    if |declared| > 0 {
      var n := |declared| - 1;
      MissingAre(declared[..n], us, name);
      assert declared == declared[..n] + [declared[n]];
    }
  }

  /** The first section is dropped as the title page exactly when it repeats the book's title over a
      stub; what is missing is what was declared and has no kept piece; the warnings are those due. */
  lemma MapSays(v: Vocabulary, x: Input, at: Option<nat>, bs: seq<Block>, m: Map)
    requires IsMapOf(v, x, at, bs, m) && at.Some?
    ensures var spans := Spans(BodyOf(x.paras)[at.value..]);
      && |m.sections| == |spans| > 0
      && (forall i :: 0 <= i < |spans| ==>
            (m.sections[i].kind == TitlePage <==> i == 0 && OnlyTitle(v, spans[0], x.bookTitle, m.title)))
      && (forall i :: 0 <= i < |spans| ==>
            m.sections[i].title == spans[i].title && m.sections[i].paras == |spans[i].paras|)
    ensures forall name :: name in m.missing <==>
      x.declared.Some? && name in x.declared.value
      && forall i :: 0 <= i < |m.untitled| && m.untitled[i].name == name ==> m.untitled[i].drop
  {
    var spans := Spans(BodyOf(x.paras)[at.value..]);
    forall i | 0 <= i < |spans|
      ensures m.sections[i].kind == TitlePage <==> i == 0 && OnlyTitle(v, spans[0], x.bookTitle, m.title)
      ensures m.sections[i].title == spans[i].title && m.sections[i].paras == |spans[i].paras|
    {
      assert m.sections[i] == SectionOf(v, spans, TitleDropped(v, spans, x.bookTitle, m.title), i);
    }
    forall name
      ensures name in m.missing <==>
        x.declared.Some? && name in x.declared.value
        && forall i :: 0 <= i < |m.untitled| && m.untitled[i].name == name ==> m.untitled[i].drop
    {
      MissingAre(Declared(x), m.untitled, name);
    }
  }
}
