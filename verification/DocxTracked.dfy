/**
 * Tracked changes: a paragraph whose properties, or whose section, keep their earlier values
 * beside the current ones, and when the streaming pass still reads the current ones.
 */
module DocxTracked {
  import opened Options
  import opened Words
  import opened DocxReader

  // Earlier paragraph properties, in document order, with whatever stands between the two the pass
  // looks at.
  datatype Prior = Prior(
    lead: Forest, style: Option<string>, afterStyle: Forest, breakVal: Option<string>, afterBreak: Forest)

  // A section's earlier properties.
  datatype Earlier = Earlier(lead: Forest, kind: Option<string>, afterKind: Forest)

  // A section ending here: its type, and its earlier properties when they changed.
  datatype SectionOf = SectionOf(lead: Forest, kind: Option<string>, afterKind: Forest, earlier: Option<Earlier>)

  datatype Props = Props(
    lead: Forest, style: Option<string>, afterStyle: Forest, breakVal: Option<string>, afterBreak: Forest,
    section: Option<SectionOf>, afterSection: Forest, prior: Option<Prior>)

  // Other properties: spacing, page sizes, run properties, tab stops.
  predicate Filler(f: Forest) {
    match f
    case Nil => true
    case Chars(_, next) => Filler(next)
    case Elem(tag, kids, next) => (tag.Other? || tag.Tab?) && Filler(kids) && Filler(next)
  }

  predicate Filled(p: Props) {
    && Filler(p.lead) && Filler(p.afterStyle) && Filler(p.afterBreak) && Filler(p.afterSection)
    && (p.section.Some? ==> FilledSection(p.section.value))
    && (p.prior.Some? ==> FilledPrior(p.prior.value))
  }

  predicate FilledSection(x: SectionOf) {
    Filler(x.lead) && Filler(x.afterKind) && (x.earlier.Some? ==> FilledEarlier(x.earlier.value))
  }

  predicate FilledEarlier(x: Earlier) {
    Filler(x.lead) && Filler(x.afterKind)
  }

  predicate FilledPrior(x: Prior) {
    Filler(x.lead) && Filler(x.afterStyle) && Filler(x.afterBreak)
  }

  function Join(f: Forest, next: Forest): Forest {
    match f
    case Nil => next
    case Chars(text, rest) => Chars(text, Join(rest, next))
    case Elem(tag, kids, rest) => Elem(tag, kids, Join(rest, next))
  }

  function Leaf(tag: Tag, next: Forest): Forest {
    Elem(tag, Nil, next)
  }

  function StyleElem(style: Option<string>, next: Forest): Forest {
    if style.Some? then Leaf(PStyle(style.value), next) else next
  }

  function BreakElem(val: Option<string>, next: Forest): Forest {
    if val.Some? then Leaf(PageBreakBefore(val.value), next) else next
  }

  function TypeElem(kind: Option<string>, next: Forest): Forest {
    if kind.Some? then Leaf(Type(kind.value), next) else next
  }

  function EarlierKids(x: Earlier): Forest {
    Join(x.lead, TypeElem(x.kind, x.afterKind))
  }

  function SectionChange(earlier: Option<Earlier>): Forest {
    if earlier.None? then Nil else Elem(Other("sectPrChange"), Elem(SectPr, EarlierKids(earlier.value), Nil), Nil)
  }

  function SectionKids(x: SectionOf): Forest {
    Join(x.lead, TypeElem(x.kind, Join(x.afterKind, SectionChange(x.earlier))))
  }

  function SectionElem(section: Option<SectionOf>, next: Forest): Forest {
    if section.None? then next else Elem(SectPr, SectionKids(section.value), next)
  }

  function PriorKids(x: Prior): Forest {
    Join(x.lead, StyleElem(x.style, Join(x.afterStyle, BreakElem(x.breakVal, x.afterBreak))))
  }

  function ChangeElem(prior: Option<Prior>): Forest {
    if prior.None? then Nil else Elem(Other("pPrChange"), Elem(PPr, PriorKids(prior.value), Nil), Nil)
  }

  function PropsKids(p: Props): Forest {
    Join(p.lead, StyleElem(p.style, Join(p.afterStyle, BreakElem(p.breakVal, Join(p.afterBreak,
      SectionElem(p.section, Join(p.afterSection, ChangeElem(p.prior))))))))
  }

  /** The children of a paragraph with these properties, in the schema's order. */
  function Content(p: Props, body: Forest): Forest {
    Elem(PPr, PropsKids(p), body)
  }

  function StyleMarks(style: Option<string>): seq<Mark> {
    if style.Some? then [StyleIs(style.value)] else []
  }

  predicate On(val: Option<string>) {
    val.Some? && val.value != "0" && val.value != "false"
  }

  function BreakMarks(val: Option<string>): seq<Mark> {
    if On(val) then [OwnBreak] else []
  }

  predicate IsContinuous(kind: Option<string>) {
    kind == Some("continuous")
  }

  function TypeMarks(kind: Option<string>): seq<Mark> {
    if IsContinuous(kind) then [Continuous] else []
  }

  function SectionChangeMarks(earlier: Option<Earlier>): seq<Mark> {
    if earlier.None? then [] else [Section] + TypeMarks(earlier.value.kind)
  }

  function SectionMarks(section: Option<SectionOf>): seq<Mark> {
    if section.None? then [] else
      [Section] + TypeMarks(section.value.kind) + SectionChangeMarks(section.value.earlier)
  }

  function PriorMarks(prior: Option<Prior>): seq<Mark> {
    if prior.None? then [] else StyleMarks(prior.value.style) + BreakMarks(prior.value.breakVal)
  }

  function PropsMarks(p: Props): seq<Mark> {
    StyleMarks(p.style) + BreakMarks(p.breakVal) + SectionMarks(p.section) + PriorMarks(p.prior)
  }

  // ---- Marks but for spaces ----

  predicate Space(m: Mark) {
    m.Text? && Blank(m.s)
  }

  // The marks without texts that are only white space, such as tab stops read as tabs.
  function Pith(ms: seq<Mark>): seq<Mark> {
    if |ms| == 0 then [] else
      Pith(ms[..|ms| - 1]) + if Space(ms[|ms| - 1]) then [] else [ms[|ms| - 1]]
  }

  lemma PithSnoc(ms: seq<Mark>, m: Mark)
    ensures Pith(ms + [m]) == if Space(m) then Pith(ms) else Pith(ms) + [m]
  {
    assert (ms + [m])[..|ms|] == ms;
    assert Pith(ms) + [] == Pith(ms);
  }

  lemma PithConcatSnoc(a: seq<Mark>, b: seq<Mark>, m: Mark)
    requires Pith(a + b) == Pith(a) + Pith(b)
    ensures Pith(a + b + [m]) == Pith(a) + Pith(b + [m])
  {
    PithSnoc(a + b, m);
    PithSnoc(b, m);
    Onward(Pith(a), Pith(b), [m]);
  }

  lemma {:induction false} PithConcat(a: seq<Mark>, b: seq<Mark>)
    ensures Pith(a + b) == Pith(a) + Pith(b)
  {
    if |b| == 0 {
      assert a + b == a && Pith(a) + [] == Pith(a);
    } else {
      var front, m := b[..|b| - 1], b[|b| - 1];
      PithConcat(a, front);
      PithConcatSnoc(a, front, m);
      assert a + b == a + front + [m] && b == front + [m];
    }
  }

  lemma BlankConcat(a: string, b: string)
    ensures Blank(a + b) <==> Blank(a) && Blank(b)
  {
    var ab := a + b;
    assert forall i :: 0 <= i < |a| ==> ab[i] == a[i];
    assert forall i :: 0 <= i < |b| ==> ab[|a| + i] == b[i];
  }

  function Said(m: Mark): string {
    match m case Text(s) => s case _ => ""
  }

  lemma {:induction false} PithKeepsBlank(ms: seq<Mark>)
    ensures Blank(TextOf(Pith(ms))) <==> Blank(TextOf(ms))
  {
    if |ms| > 0 {
      var front, m := ms[..|ms| - 1], ms[|ms| - 1];
      PithKeepsBlank(front);
      PithSnoc(front, m);
      TextSnoc(Pith(front), m);
      BlankConcat(TextOf(front), Said(m));
      BlankConcat(TextOf(Pith(front)), Said(m));
      assert ms == front + [m];
    }
  }

  lemma {:induction false} PithKeepsImages(ms: seq<Mark>)
    ensures Image in Pith(ms) <==> Image in ms
  {
    if |ms| > 0 {
      PithKeepsImages(ms[..|ms| - 1]);
      assert ms == ms[..|ms| - 1] + [ms[|ms| - 1]];
    }
  }

  lemma PithHasContent(ms: seq<Mark>)
    ensures HasContent(Pith(ms)) <==> HasContent(ms)
  {
    PithKeepsBlank(ms);
    PithKeepsImages(ms);
  }

  lemma {:induction false} PithKeepsStyle(ms: seq<Mark>)
    ensures StyleOf(Pith(ms)) == StyleOf(ms)
  {
    if |ms| > 0 {
      var front, m := ms[..|ms| - 1], ms[|ms| - 1];
      PithKeepsStyle(front);
      PithSnoc(front, m);
      assert ms == front + [m];
      if !Space(m) { assert (Pith(front) + [m])[..|Pith(front)|] == Pith(front); }
    }
  }

  lemma {:induction false} PithKeepsBreaks(ms: seq<Mark>)
    ensures BreaksAfter(Pith(ms)) <==> BreaksAfter(ms)
    ensures BreaksBefore(Pith(ms)) <==> BreaksBefore(ms)
  {
    if |ms| > 0 {
      var front, m := ms[..|ms| - 1], ms[|ms| - 1];
      PithKeepsBreaks(front);
      PithSnoc(front, m);
      PithHasContent(front);
      AfterSnoc(front, m);
      AfterSnoc(Pith(front), m);
      BeforeSnoc(front, m);
      BeforeSnoc(Pith(front), m);
      assert ms == front + [m];
    }
  }

  lemma {:induction false} PithOfBody(ms: seq<Mark>)
    requires IsBody(ms)
    ensures IsBody(Pith(ms))
  {
    if |ms| > 0 {
      PithOfBody(ms[..|ms| - 1]);
    }
  }

  // ---- Properties read ----

  function PropsRead(f: Forest): seq<Mark>
    requires Regular(f, true)
  {
    Pith(Marks(f, true))
  }

  // An element inside properties, its own marks first.
  lemma NodeIsRead(tag: Tag, kids: Forest, next: Forest)
    requires !tag.P? && !tag.PPr? && !tag.T? && Regular(kids, true) && Regular(next, true) && !HasProps(kids)
    ensures Regular(Elem(tag, kids, next), true)
    ensures PropsRead(Elem(tag, kids, next)) == Pith(TagMarks(tag, true)) + PropsRead(kids) + PropsRead(next)
    ensures HasProps(Elem(tag, kids, next)) == HasProps(next)
  {
    assert ElemMarks(tag, kids, true) == TagMarks(tag, true) + Marks(kids, true);
    PithConcat(TagMarks(tag, true) + Marks(kids, true), Marks(next, true));
    PithConcat(TagMarks(tag, true), Marks(kids, true));
  }

  lemma {:induction false} FillerIsRead(f: Forest)
    requires Filler(f)
    ensures Regular(f, true) && !HasProps(f) && PropsRead(f) == []
  {
    match f
    case Nil =>
    case Chars(_, next) => FillerIsRead(next);
    case Elem(tag, kids, next) =>
      FillerIsRead(kids);
      FillerIsRead(next);
      NodeIsRead(tag, kids, next);
      assert Pith(TagMarks(tag, true)) == [] by {
        PithSnoc([], Text(" "));
        assert [] + [Text(" ")] == [Text(" ")];
      }
  }

  lemma {:induction false} JoinIsRead(f: Forest, next: Forest)
    requires Filler(f) && Regular(next, true)
    ensures Regular(Join(f, next), true) && HasProps(Join(f, next)) == HasProps(next)
    ensures PropsRead(Join(f, next)) == PropsRead(next)
  {
    match f
    case Nil =>
    case Chars(_, rest) => JoinIsRead(rest, next);
    case Elem(tag, kids, rest) =>
      JoinIsRead(rest, next);
      FillerIsRead(kids);
      NodeIsRead(tag, kids, Join(rest, next));
      FillerIsRead(Elem(tag, kids, Nil));
      NodeIsRead(tag, kids, Nil);
      assert Pith(TagMarks(tag, true)) + PropsRead(kids) + PropsRead(next) == PropsRead(next);
  }

  lemma LeafIsRead(tag: Tag, next: Forest)
    requires !tag.P? && !tag.PPr? && !tag.T? && Regular(next, true)
    ensures Regular(Leaf(tag, next), true) && HasProps(Leaf(tag, next)) == HasProps(next)
    ensures PropsRead(Leaf(tag, next)) == Pith(TagMarks(tag, true)) + PropsRead(next)
  {
    NodeIsRead(tag, Nil, next);
    assert Pith(TagMarks(tag, true)) + [] == Pith(TagMarks(tag, true));
  }

  lemma OneMarkStays(m: Mark)
    requires !m.Text?
    ensures Pith([m]) == [m] && Pith([]) == []
  {
    PithSnoc([], m);
    assert [] + [m] == [m];
  }

  lemma TypeIsRead(kind: Option<string>, next: Forest)
    requires Regular(next, true)
    ensures Regular(TypeElem(kind, next), true) && HasProps(TypeElem(kind, next)) == HasProps(next)
    ensures PropsRead(TypeElem(kind, next)) == TypeMarks(kind) + PropsRead(next)
  {
    if kind.Some? {
      LeafIsRead(Type(kind.value), next);
      OneMarkStays(Continuous);
    }
    assert [] + PropsRead(next) == PropsRead(next);
  }

  lemma StyleIsRead(style: Option<string>, next: Forest)
    requires Regular(next, true)
    ensures Regular(StyleElem(style, next), true)
    ensures PropsRead(StyleElem(style, next)) == StyleMarks(style) + PropsRead(next)
  {
    if style.Some? {
      LeafIsRead(PStyle(style.value), next);
      OneMarkStays(StyleIs(style.value));
    }
    assert [] + PropsRead(next) == PropsRead(next);
  }

  lemma BreakIsRead(val: Option<string>, next: Forest)
    requires Regular(next, true)
    ensures Regular(BreakElem(val, next), true)
    ensures PropsRead(BreakElem(val, next)) == BreakMarks(val) + PropsRead(next)
  {
    if val.Some? {
      LeafIsRead(PageBreakBefore(val.value), next);
      OneMarkStays(OwnBreak);
    }
    assert [] + PropsRead(next) == PropsRead(next);
  }

  lemma EarlierIsRead(x: Earlier)
    requires FilledEarlier(x)
    ensures Regular(EarlierKids(x), true) && !HasProps(EarlierKids(x)) && PropsRead(EarlierKids(x)) == TypeMarks(x.kind)
  {
    FillerIsRead(x.afterKind);
    TypeIsRead(x.kind, x.afterKind);
    JoinIsRead(x.lead, TypeElem(x.kind, x.afterKind));
    assert TypeMarks(x.kind) + [] == TypeMarks(x.kind);
  }

  lemma EarlierSectionIsRead(x: Earlier)
    requires FilledEarlier(x)
    ensures var sect := Elem(SectPr, EarlierKids(x), Nil);
      Regular(sect, true) && !HasProps(sect) && PropsRead(sect) == [Section] + TypeMarks(x.kind)
  {
    EarlierIsRead(x);
    NodeIsRead(SectPr, EarlierKids(x), Nil);
    OneMarkStays(Section);
    assert [Section] + TypeMarks(x.kind) + [] == [Section] + TypeMarks(x.kind);
  }

  lemma SectionChangeIsRead(earlier: Option<Earlier>)
    requires earlier.Some? ==> FilledEarlier(earlier.value)
    ensures Regular(SectionChange(earlier), true) && !HasProps(SectionChange(earlier))
    ensures PropsRead(SectionChange(earlier)) == SectionChangeMarks(earlier)
  {
    if earlier.Some? {
      var sect := Elem(SectPr, EarlierKids(earlier.value), Nil);
      EarlierSectionIsRead(earlier.value);
      NodeIsRead(Other("sectPrChange"), sect, Nil);
      assert [] + PropsRead(sect) + [] == PropsRead(sect);
    }
  }

  lemma SectionKidsAreRead(x: SectionOf)
    requires FilledSection(x)
    ensures Regular(SectionKids(x), true) && !HasProps(SectionKids(x))
    ensures PropsRead(SectionKids(x)) == TypeMarks(x.kind) + SectionChangeMarks(x.earlier)
  {
    var change := SectionChange(x.earlier);
    SectionChangeIsRead(x.earlier);
    JoinIsRead(x.afterKind, change);
    TypeIsRead(x.kind, Join(x.afterKind, change));
    JoinIsRead(x.lead, TypeElem(x.kind, Join(x.afterKind, change)));
  }

  lemma SectionIsRead(section: Option<SectionOf>, next: Forest)
    requires Regular(next, true) && (section.Some? ==> FilledSection(section.value))
    ensures Regular(SectionElem(section, next), true)
    ensures PropsRead(SectionElem(section, next)) == SectionMarks(section) + PropsRead(next)
  {
    if section.None? {
      assert [] + PropsRead(next) == PropsRead(next);
    } else {
      var x := section.value;
      SectionKidsAreRead(x);
      NodeIsRead(SectPr, SectionKids(x), next);
      OneMarkStays(Section);
      Onward([Section], TypeMarks(x.kind), SectionChangeMarks(x.earlier));
    }
  }

  lemma Onward(a: seq<Mark>, b: seq<Mark>, c: seq<Mark>)
    ensures a + (b + c) == a + b + c
  {
  }

  lemma PriorIsRead(x: Prior)
    requires FilledPrior(x)
    ensures Regular(PriorKids(x), true) && PropsRead(PriorKids(x)) == StyleMarks(x.style) + BreakMarks(x.breakVal)
  {
    FillerIsRead(x.afterBreak);
    BreakIsRead(x.breakVal, x.afterBreak);
    JoinIsRead(x.afterStyle, BreakElem(x.breakVal, x.afterBreak));
    StyleIsRead(x.style, Join(x.afterStyle, BreakElem(x.breakVal, x.afterBreak)));
    JoinIsRead(x.lead, StyleElem(x.style, Join(x.afterStyle, BreakElem(x.breakVal, x.afterBreak))));
    assert BreakMarks(x.breakVal) + [] == BreakMarks(x.breakVal);
  }

  lemma ChangeIsRead(prior: Option<Prior>)
    requires prior.Some? ==> FilledPrior(prior.value)
    ensures Regular(ChangeElem(prior), true) && PropsRead(ChangeElem(prior)) == PriorMarks(prior)
  {
    if prior.Some? {
      var inner := PriorKids(prior.value);
      PriorIsRead(prior.value);
      var kids := Elem(PPr, inner, Nil);
      assert RegularElem(PPr, inner, true) && Regular(kids, true);
      assert Marks(kids, true) == Marks(inner, true) by {
        assert Marks(inner, true) + [] == Marks(inner, true);
      }
      assert [] + Marks(kids, true) == Marks(kids, true) == Marks(kids, true) + [];
    }
  }

  lemma PropsKidsAreRead(p: Props)
    requires Filled(p)
    ensures Regular(PropsKids(p), true) && PropsRead(PropsKids(p)) == PropsMarks(p)
  {
    var change := Join(p.afterSection, ChangeElem(p.prior));
    var section := Join(p.afterBreak, SectionElem(p.section, change));
    var tail := Join(p.afterStyle, BreakElem(p.breakVal, section));
    ChangeIsRead(p.prior);
    JoinIsRead(p.afterSection, ChangeElem(p.prior));
    SectionIsRead(p.section, change);
    JoinIsRead(p.afterBreak, SectionElem(p.section, change));
    BreakIsRead(p.breakVal, section);
    JoinIsRead(p.afterStyle, BreakElem(p.breakVal, section));
    StyleIsRead(p.style, tail);
    JoinIsRead(p.lead, StyleElem(p.style, tail));
    Regrouped(StyleMarks(p.style), BreakMarks(p.breakVal), SectionMarks(p.section), PriorMarks(p.prior));
  }

  /** Every property the pass looks at is read where it stands, the earlier ones after the current
      ones; what stands between them makes spaces at most. */
  lemma PropertiesAreRead(p: Props, body: Forest)
    requires Filled(p) && Regular(body, false)
    ensures Regular(Content(p, body), false)
    ensures Pith(Marks(Content(p, body), false)) == PropsMarks(p) + Pith(Marks(body, false))
  {
    PropsKidsAreRead(p);
    PithConcat(Marks(PropsKids(p), true), Marks(body, false));
    assert Marks(Content(p, body), false) == Marks(PropsKids(p), true) + Marks(body, false);
  }

  lemma Regrouped(a: seq<Mark>, b: seq<Mark>, c: seq<Mark>, d: seq<Mark>)
    ensures a + (b + (c + d)) == a + b + c + d
  {
  }

  /** Style and breaks of such a paragraph, from its properties and its body. */
  lemma ContentReads(p: Props, body: Forest)
    requires Filled(p) && Regular(body, false) && IsBody(Marks(body, false))
    ensures Regular(Content(p, body), false)
    ensures var ms, rest := Marks(Content(p, body), false), Pith(Marks(body, false));
      && IsBody(rest)
      && StyleOf(ms) == StyleOf(PropsMarks(p) + rest)
      && (BreaksAfter(ms) <==> BreaksAfter(PropsMarks(p) + rest))
      && (BreaksBefore(ms) <==> BreaksBefore(PropsMarks(p) + rest))
      && (BreaksAfter(rest) <==> BreaksAfter(Marks(body, false)))
      && (BreaksBefore(rest) <==> BreaksBefore(Marks(body, false)))
  {
    PropertiesAreRead(p, body);
    PithKeepsStyle(Marks(Content(p, body), false));
    PithKeepsBreaks(Marks(Content(p, body), false));
    PithKeepsBreaks(Marks(body, false));
    PithOfBody(Marks(body, false));
  }

  // What stands in a body: text, images and breaks; never a property.
  predicate IsBody(ms: seq<Mark>) {
    forall i :: 0 <= i < |ms| ==> ms[i].Text? || ms[i].Image? || ms[i].PageBreak?
  }

  lemma {:induction false} StyleOfBody(a: seq<Mark>, b: seq<Mark>)
    requires IsBody(b)
    ensures StyleOf(a + b) == StyleOf(a)
  {
    if |b| == 0 {
      assert a + b == a;
    } else {
      StyleOfBody(a, b[..|b| - 1]);
      assert (a + b)[..|a + b| - 1] == a + b[..|b| - 1];
    }
  }

  lemma StyleOfProps(p: Props)
    ensures StyleOf(PropsMarks(p)) ==
            if p.prior.Some? && p.prior.value.style.Some? then p.prior.value.style else p.style
  {
    var own := StyleMarks(p.style);
    assert StyleOf(own) == p.style by {
      if p.style.Some? {
        assert own[..0] == [];
      }
    }
    Unstyled(own, BreakMarks(p.breakVal));
    Unstyled(own + BreakMarks(p.breakVal), SectionMarks(p.section));
    PriorStyle(own + BreakMarks(p.breakVal) + SectionMarks(p.section), p.prior);
  }

  lemma PriorStyle(a: seq<Mark>, prior: Option<Prior>)
    ensures StyleOf(a + PriorMarks(prior)) ==
            if prior.Some? && prior.value.style.Some? then prior.value.style else StyleOf(a)
  {
    if prior.None? {
      assert a + [] == a;
    } else {
      var b := StyleMarks(prior.value.style);
      Unstyled(a + b, BreakMarks(prior.value.breakVal));
      assert a + b + BreakMarks(prior.value.breakVal) == a + PriorMarks(prior);
      if prior.value.style.Some? {
        assert (a + b)[..|a|] == a;
      } else {
        assert a + b == a;
      }
    }
  }

  lemma {:induction false} Unstyled(a: seq<Mark>, b: seq<Mark>)
    requires forall i :: 0 <= i < |b| ==> !b[i].StyleIs?
    ensures StyleOf(a + b) == StyleOf(a)
  {
    if |b| == 0 {
      assert a + b == a;
    } else {
      Unstyled(a, b[..|b| - 1]);
      assert (a + b)[..|a + b| - 1] == a + b[..|b| - 1];
    }
  }

  /** The style read is the paragraph's own exactly when no tracked change kept another one. */
  lemma OwnStyleRead(p: Props, body: Forest)
    requires Filled(p) && Regular(body, false) && IsBody(Marks(body, false))
    ensures Regular(Content(p, body), false)
    ensures StyleOf(Marks(Content(p, body), false)) == p.style <==>
            !(p.prior.Some? && p.prior.value.style.Some? && p.prior.value.style != p.style)
  {
    ContentReads(p, body);
    StyleOfBody(PropsMarks(p), Pith(Marks(body, false)));
    StyleOfProps(p);
  }

  // A section that does not continue on the same page, judged by its own type.
  predicate EndsPage(p: Props) {
    p.section.Some? && !IsContinuous(p.section.value.kind)
  }

  // The section's earlier type, had it been the current one.
  predicate EndedPage(p: Props) {
    p.section.Some? && p.section.value.earlier.Some? && !IsContinuous(p.section.value.earlier.value.kind)
  }

  /**
   * A new page is asked for after the paragraph exactly when its section ends the page or its body
   * breaks after content, unless a tracked change kept an earlier section type that disagrees and
   * the body has no such break.
   */
  lemma OwnSectionRead(p: Props, body: Forest)
    requires Filled(p) && Regular(body, false) && IsBody(Marks(body, false))
    ensures Regular(Content(p, body), false)
    ensures (BreaksAfter(Marks(Content(p, body), false)) <==> EndsPage(p) || BreaksAfter(Marks(body, false))) <==>
            !(p.section.Some? && p.section.value.earlier.Some? && (EndsPage(p) != EndedPage(p))
              && !BreaksAfter(Marks(body, false)))
  {
    ContentReads(p, body);
    AfterProps(p);
    PropsAreWordless(p);
    BodyAfter(PropsMarks(p), Pith(Marks(body, false)));
  }

  lemma AfterProps(p: Props)
    ensures BreaksAfter(PropsMarks(p)) <==>
            p.section.Some? && (if p.section.value.earlier.Some? then EndedPage(p) else EndsPage(p))
  {
    var a := StyleMarks(p.style) + BreakMarks(p.breakVal);
    assert PropsMarks(p) == a + SectionMarks(p.section) + PriorMarks(p.prior);
    QuietAfter(a + SectionMarks(p.section), PriorMarks(p.prior));
    QuietAfter([], a);
    assert [] + a == a && !BreaksAfter([]);
    SectionAfter(a, p.section);
  }

  lemma PropsAreWordless(p: Props)
    ensures Wordless(PropsMarks(p))
  {
    assert Wordless(StyleMarks(p.style)) && Wordless(BreakMarks(p.breakVal));
    assert Wordless(SectionMarks(p.section)) && Wordless(PriorMarks(p.prior));
    WordlessConcat(StyleMarks(p.style), BreakMarks(p.breakVal), SectionMarks(p.section), PriorMarks(p.prior));
  }

  lemma WordlessConcat(a: seq<Mark>, b: seq<Mark>, c: seq<Mark>, d: seq<Mark>)
    requires Wordless(a) && Wordless(b) && Wordless(c) && Wordless(d)
    ensures Wordless(a + b + c + d)
  {
  }

  // Marks of properties: no text, no image, no hard break.
  predicate Wordless(ms: seq<Mark>) {
    forall i :: 0 <= i < |ms| ==> !ms[i].Text? && !ms[i].Image? && !ms[i].PageBreak?
  }

  lemma {:induction false} WordlessHasNoContent(a: seq<Mark>)
    requires Wordless(a)
    ensures TextOf(a) == "" && Image !in a
  {
    if |a| > 0 {
      WordlessHasNoContent(a[..|a| - 1]);
    }
  }

  lemma TextSnoc(ms: seq<Mark>, m: Mark)
    ensures TextOf(ms + [m]) == TextOf(ms) + match m case Text(s) => s case _ => ""
  {
    assert (ms + [m])[..|ms|] == ms;
  }

  lemma {:induction false} TextOfBody(a: seq<Mark>, b: seq<Mark>)
    requires Wordless(a)
    ensures TextOf(a + b) == TextOf(b)
  {
    WordlessHasNoContent(a);
    if |b| == 0 {
      assert a + b == a;
    } else {
      var front, m := b[..|b| - 1], b[|b| - 1];
      TextOfBody(a, front);
      TextSnoc(a + front, m);
      assert a + b == a + front + [m];
    }
  }

  lemma ContentOfBody(a: seq<Mark>, b: seq<Mark>)
    requires Wordless(a)
    ensures HasContent(a + b) <==> HasContent(b)
  {
    TextOfBody(a, b);
  }

  lemma {:induction false} BodyAfter(a: seq<Mark>, b: seq<Mark>)
    requires Wordless(a) && IsBody(b)
    ensures BreaksAfter(a + b) <==> BreaksAfter(a) || BreaksAfter(b)
  {
    if |b| == 0 {
      assert a + b == a;
    } else {
      var front, m := b[..|b| - 1], b[|b| - 1];
      BodyAfter(a, front);
      ContentOfBody(a, front);
      AfterSnoc(a + front, m);
      AfterSnoc(front, m);
      assert a + b == a + front + [m] && b == front + [m];
    }
  }

  lemma {:induction false} BodyBefore(a: seq<Mark>, b: seq<Mark>)
    requires Wordless(a) && IsBody(b)
    ensures BreaksBefore(a + b) <==> BreaksBefore(a) || BreaksBefore(b)
  {
    if |b| == 0 {
      assert a + b == a;
    } else {
      var front, m := b[..|b| - 1], b[|b| - 1];
      BodyBefore(a, front);
      ContentOfBody(a, front);
      BeforeSnoc(a + front, m);
      BeforeSnoc(front, m);
      assert a + b == a + front + [m] && b == front + [m];
    }
  }

  lemma WordlessBefore(a: seq<Mark>)
    requires Wordless(a)
    ensures BreaksBefore(a) <==> OwnBreak in a
  {
  }

  // The paragraph's earlier properties asked for a new page before it.
  predicate BrokeBefore(p: Props) {
    p.prior.Some? && On(p.prior.value.breakVal)
  }

  /**
   * A new page is asked for before the paragraph exactly when its own properties or a hard break
   * ahead of its content ask for one, unless only its earlier properties did.
   */
  lemma OwnBreakRead(p: Props, body: Forest)
    requires Filled(p) && Regular(body, false) && IsBody(Marks(body, false))
    ensures Regular(Content(p, body), false)
    ensures (BreaksBefore(Marks(Content(p, body), false)) <==> On(p.breakVal) || BreaksBefore(Marks(body, false))) <==>
            !(BrokeBefore(p) && !On(p.breakVal) && !BreaksBefore(Marks(body, false)))
  {
    ContentReads(p, body);
    PropsAreWordless(p);
    BodyBefore(PropsMarks(p), Pith(Marks(body, false)));
    WordlessBefore(PropsMarks(p));
    BreakOfProps(p);
  }

  lemma BreakOfProps(p: Props)
    ensures OwnBreak in PropsMarks(p) <==> On(p.breakVal) || BrokeBefore(p)
  {
    InConcat(StyleMarks(p.style), BreakMarks(p.breakVal), SectionMarks(p.section), PriorMarks(p.prior));
    assert OwnBreak !in StyleMarks(p.style) && OwnBreak !in SectionMarks(p.section);
    if p.prior.Some? {
      assert OwnBreak !in StyleMarks(p.prior.value.style);
    }
  }

  lemma InConcat(a: seq<Mark>, b: seq<Mark>, c: seq<Mark>, d: seq<Mark>)
    ensures OwnBreak in a + b + c + d <==> OwnBreak in a || OwnBreak in b || OwnBreak in c || OwnBreak in d
  {
  }

  // Marks that neither raise a break nor clear one.
  lemma {:induction false} QuietAfter(a: seq<Mark>, b: seq<Mark>)
    requires forall i :: 0 <= i < |b| ==> b[i].StyleIs? || b[i].OwnBreak?
    ensures BreaksAfter(a + b) <==> BreaksAfter(a)
  {
    if |b| == 0 {
      assert a + b == a;
    } else {
      var n := |b| - 1;
      QuietAfter(a, b[..n]);
      AfterSnoc(a + b[..n], b[n]);
      assert a + b == a + b[..n] + [b[n]];
    }
  }

  lemma SectionAfter(a: seq<Mark>, section: Option<SectionOf>)
    requires !BreaksAfter(a)
    ensures BreaksAfter(a + SectionMarks(section)) <==>
            section.Some? && (if section.value.earlier.Some? then !IsContinuous(section.value.earlier.value.kind)
                              else !IsContinuous(section.value.kind))
  {
    if section.None? {
      assert a + [] == a;
    } else {
      var x := section.value;
      var b := a + [Section];
      AfterSnoc(a, Section);
      var c := b + TypeMarks(x.kind);
      AfterType(b, x.kind);
      if x.earlier.None? {
        assert a + SectionMarks(section) == c;
      } else {
        AfterSnoc(c, Section);
        AfterType(c + [Section], x.earlier.value.kind);
        assert a + SectionMarks(section) == c + [Section] + TypeMarks(x.earlier.value.kind);
      }
    }
  }

  lemma AfterType(a: seq<Mark>, kind: Option<string>)
    requires BreaksAfter(a)
    ensures BreaksAfter(a + TypeMarks(kind)) <==> !IsContinuous(kind)
  {
    if IsContinuous(kind) {
      AfterSnoc(a, Continuous);
    } else {
      assert a + [] == a;
    }
  }

  /** A heading restyled under change tracking is still read as the heading it was. */
  lemma RestyledHeading(st: Styles, p: Props, body: Forest, heading: string, carried: bool)
    requires Filled(p) && Regular(body, false) && IsBody(Marks(body, false))
    requires p.prior.Some? && p.prior.value.style == Some(heading)
    ensures Regular(Content(p, body), false)
    ensures Read(st, Marks(Content(p, body), false), carried).style == st.Resolve(heading)
  {
    ContentReads(p, body);
    StyleOfBody(PropsMarks(p), Pith(Marks(body, false)));
    StyleOfProps(p);
  }

  // What Word writes beside the properties of interest: margins, spacing, a tab stop.
  function PageSize(): Forest {
    Leaf(Other("pgSz"), Leaf(Other("pgMar"), Nil))
  }

  function TabStop(): Forest {
    Elem(Other("tabs"), Leaf(Tab, Nil), Leaf(Other("spacing"), Nil))
  }

  function TrackedBreak(): Props {
    Props(Nil, None, Nil, None, TabStop(), None, Nil, Some(Prior(Nil, None, Nil, Some("1"), TabStop())))
  }

  lemma TabStopFills()
    ensures Filler(TabStop()) && Filled(TrackedBreak())
  {
    assert Filler(Leaf(Tab, Nil)) && Filler(Leaf(Other("spacing"), Nil));
  }

  /** A page-break-before taken away under change tracking still breaks the page. */
  lemma RemovedBreak(st: Styles, body: Forest)
    requires Regular(body, false) && IsBody(Marks(body, false)) && !BreaksBefore(Marks(body, false))
    ensures Filled(TrackedBreak()) && Regular(Content(TrackedBreak(), body), false)
    ensures !On(TrackedBreak().breakVal) && Read(st, Marks(Content(TrackedBreak(), body), false), false).breakBefore
  {
    TabStopFills();
    OwnBreakRead(TrackedBreak(), body);
  }

  function TrackedSection(): Props {
    var was := Earlier(Nil, Some("continuous"), PageSize());
    Props(Nil, None, Nil, None, Nil, Some(SectionOf(Nil, Some("nextPage"), PageSize(), Some(was))), Nil, None)
  }

  lemma PageSizeFills()
    ensures Filler(PageSize()) && Filled(TrackedSection())
  {
    assert Filler(Leaf(Other("pgMar"), Nil));
  }

  /** A section changed from continuous to next-page under change tracking still runs on. */
  lemma RetypedSection(body: Forest)
    requires Regular(body, false) && IsBody(Marks(body, false)) && !BreaksAfter(Marks(body, false))
    ensures Filled(TrackedSection()) && Regular(Content(TrackedSection(), body), false)
    ensures EndsPage(TrackedSection()) && !BreaksAfter(Marks(Content(TrackedSection(), body), false))
  {
    PageSizeFills();
    OwnSectionRead(TrackedSection(), body);
  }
}
