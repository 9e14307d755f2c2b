/** The streaming pass over word/document.xml and the reading of the tree it implements. */
module DocxReader {
  import opened Folds
  import opened Options
  import opened Words

  // Element names by their local part, with the one attribute the pass looks at.
  datatype Tag =
    | P
    | PPr
    | PStyle(id: string)
    | PageBreakBefore(val: string)
    | SectPr
    | Type(kind: string)
    | Br(sort: string)
    | Drawing
    | Pict
    | Tab
    | T
    | Other(name: string)

  datatype Token = Start(tag: Tag) | End(tag: Tag) | Characters(text: string) | Broken

  // Children of an element, in document order.
  datatype Forest =
    | Nil
    | Chars(text: string, next: Forest)
    | Elem(tag: Tag, kids: Forest, next: Forest)

  datatype Para = Para(style: string, text: string, image: bool, breakBefore: bool)

  // Style ids to normalised names; an id without a usable name is normalised itself.
  datatype Styles = Styles(names: map<string, string>, norm: string -> string) {
    function Resolve(id: string): string {
      if id in names && names[id] != "" then names[id] else norm(id)
    }
  }

  function Flatten(f: Forest): seq<Token> {
    match f
    case Nil => []
    case Chars(text, next) => [Characters(text)] + Flatten(next)
    case Elem(tag, kids, next) => [Start(tag)] + Flatten(kids) + [End(tag)] + Flatten(next)
  }

  // ---- The machine ----

  datatype State = State(
    out: seq<Para>, cur: Option<Para>, text: string, pending: bool, after: bool,
    inPPr: bool, inT: bool, depth: int)

  function Initial(): State {
    State([], None, "", false, false, false, false, 0)
  }

  function Flush(s: State): State {
    if s.cur.None? then s else
      var p := s.cur.value.(text := Trim(s.text));
      var kept := p.text != "" || p.image;
      s.(cur := None, text := "", after := false,
         out := if kept then s.out + [p.(breakBefore := p.breakBefore || s.pending)] else s.out,
         pending := if kept then s.after else s.pending || p.breakBefore || s.after)
  }

  // What an element of an open, outermost paragraph says about it.
  datatype Mark = StyleIs(id: string) | OwnBreak | Section | Continuous | Text(s: string) | PageBreak | Image

  function Apply(st: Styles, s: State, m: Mark): (r: State)
    requires s.cur.Some?
    ensures r.cur.Some? && r == s.(cur := r.cur, text := r.text, after := r.after)
  {
    match m
    case StyleIs(id) => s.(cur := Some(s.cur.value.(style := st.Resolve(id))))
    case OwnBreak => s.(cur := Some(s.cur.value.(breakBefore := true)))
    case Section => s.(after := true)
    case Continuous => s.(after := false)
    case Text(t) => s.(text := s.text + t)
    case Image => s.(cur := Some(s.cur.value.(image := true)))
    case PageBreak =>
      if Trim(s.text) == "" && !s.cur.value.image then s.(cur := Some(s.cur.value.(breakBefore := true)))
      else s.(after := true)
  }

  // The marks a start tag makes, inside or outside a paragraph's properties.
  function TagMarks(tag: Tag, props: bool): seq<Mark> {
    match tag
    case PStyle(id) => if props then [StyleIs(id)] else []
    case PageBreakBefore(val) => if props && val != "0" && val != "false" then [OwnBreak] else []
    case SectPr => if props then [Section] else []
    case Type(kind) => if props && kind == "continuous" then [Continuous] else []
    case Br(sort) =>
      if sort == "page" then [PageBreak] else if sort == "" || sort == "textWrapping" then [Text(" ")] else []
    case Tab => [Text(" ")]
    case Drawing => [Image]
    case Pict => [Image]
    case _ => []
  }

  function StartStep(st: Styles, s: State, tag: Tag): State {
    match tag
    case P =>
      var t := s.(depth := s.depth + 1);
      if t.depth == 1 then t.(cur := Some(Para("normal", "", false, false))) else t
    case PPr => s.(inPPr := s.depth == 1)
    case T => s.(inT := true)
    case SectPr => if s.inPPr then s.(after := true) else s
    case Type(kind) => if s.inPPr && kind == "continuous" then s.(after := false) else s
    case PStyle(id) => if s.inPPr && s.cur.Some? then Apply(st, s, StyleIs(id)) else s
    case PageBreakBefore(val) =>
      if s.inPPr && s.cur.Some? && val != "0" && val != "false" then Apply(st, s, OwnBreak) else s
    case Br(sort) =>
      if s.depth != 1 || s.cur.None? then s
      else if sort == "page" then Apply(st, s, PageBreak)
      else if sort == "" || sort == "textWrapping" then Apply(st, s, Text(" "))
      else s
    case Drawing => if s.depth == 1 && s.cur.Some? then Apply(st, s, Image) else s
    case Pict => if s.depth == 1 && s.cur.Some? then Apply(st, s, Image) else s
    case Tab => if s.depth == 1 && s.cur.Some? then Apply(st, s, Text(" ")) else s
    case Other(_) => s
  }

  function EndStep(s: State, tag: Tag): State {
    match tag
    case T => s.(inT := false)
    case PPr => s.(inPPr := false)
    case P =>
      var t := if s.depth == 1 then Flush(s) else s;
      t.(depth := s.depth - 1)
    case _ => s
  }

  function Step(st: Styles, s: State, t: Token): State {
    match t
    case Start(tag) => StartStep(st, s, tag)
    case End(tag) => EndStep(s, tag)
    case Characters(text) => if s.depth == 1 && s.cur.Some? && s.inT then s.(text := s.text + text) else s
    case Broken => s
  }

  function Machine(st: Styles): (State, Token) -> State {
    (s, t) => Step(st, s, t)
  }

  function Run(st: Styles, s: State, ts: seq<Token>): State {
    Fold(Machine(st), s, ts)
  }

  function ApplyAll(st: Styles, s: State, ms: seq<Mark>): (r: State)
    requires s.cur.Some?
    ensures r.cur.Some?
    ensures r == s.(cur := r.cur, text := r.text, after := r.after)
  {
    if |ms| == 0 then s else Apply(st, ApplyAll(st, s, ms[..|ms| - 1]), ms[|ms| - 1])
  }

  // ---- The tree ----

  // Text elements hold characters only.
  predicate OnlyChars(f: Forest) {
    match f
    case Nil => true
    case Chars(_, next) => OnlyChars(next)
    case Elem(_, _, _) => false
  }

  function AllChars(f: Forest): string
    requires OnlyChars(f)
  {
    match f
    case Nil => ""
    case Chars(text, next) => text + AllChars(next)
  }

  predicate HasProps(f: Forest) {
    match f
    case Nil => false
    case Chars(_, next) => HasProps(next)
    case Elem(tag, kids, next) => tag.PPr? || (!tag.P? && HasProps(kids)) || HasProps(next)
  }

  // What the children of an outermost paragraph say about it, in order.
  function Marks(f: Forest, props: bool): seq<Mark>
    requires Regular(f, props)
    decreases f, 0
  {
    match f
    case Nil => []
    case Chars(_, next) => Marks(next, props)
    case Elem(tag, kids, next) => ElemMarks(tag, kids, props) + Marks(next, props)
  }

  function ElemMarks(tag: Tag, kids: Forest, props: bool): seq<Mark>
    requires RegularElem(tag, kids, props)
    decreases kids, 1
  {
    match tag
    case P => []
    case T => [Text(AllChars(kids))]
    case PPr => Marks(kids, true)
    case _ => TagMarks(tag, props) + Marks(kids, props)
  }

  // The shape the WordprocessingML schema gives the inside of a paragraph: text elements hold
  // characters, no paragraph sits inside properties, and earlier properties (a tracked change)
  // come last in the properties they belong to.
  predicate Regular(f: Forest, props: bool)
    decreases f, 0
  {
    match f
    case Nil => true
    case Chars(_, next) => Regular(next, props)
    case Elem(tag, kids, next) =>
      && RegularElem(tag, kids, props)
      && Regular(next, props)
      && (props && (tag.PPr? || HasProps(kids)) ==> Silent(next))
  }

  predicate RegularElem(tag: Tag, kids: Forest, props: bool)
    decreases kids, 1
  {
    match tag
    case P => !props
    case T => OnlyChars(kids)
    case PPr => Regular(kids, true)
    case _ => Regular(kids, props)
  }

  // Nothing the pass would recognise.
  predicate Silent(f: Forest) {
    match f
    case Nil => true
    case Chars(_, next) => Silent(next)
    case Elem(tag, kids, next) => tag.Other? && Silent(kids) && Silent(next)
  }

  // A document: paragraphs, wherever they sit, are regular.
  predicate Document(f: Forest) {
    match f
    case Nil => true
    case Chars(_, next) => Document(next)
    case Elem(tag, kids, next) =>
      && (if tag.P? then Regular(kids, false) else if tag.T? then OnlyChars(kids) else Document(kids))
      && Document(next)
  }

  /** The outermost paragraphs, in document order. */
  function Paragraphs(f: Forest): seq<seq<Mark>>
    requires Document(f)
    decreases f, 0
  {
    match f
    case Nil => []
    case Chars(_, next) => Paragraphs(next)
    case Elem(tag, kids, next) =>
      ElemParagraphs(tag, kids) + Paragraphs(next)
  }

  function ElemParagraphs(tag: Tag, kids: Forest): seq<seq<Mark>>
    requires if tag.P? then Regular(kids, false) else if tag.T? then OnlyChars(kids) else Document(kids)
    decreases kids, 1
  {
    if tag.P? then [Marks(kids, false)] else if tag.T? then [] else Paragraphs(kids)
  }

  // ---- The declarative reading ----

  function TextOf(ms: seq<Mark>): string {
    if |ms| == 0 then "" else
      TextOf(ms[..|ms| - 1]) + match ms[|ms| - 1] case Text(s) => s case _ => ""
  }

  function StyleOf(ms: seq<Mark>): Option<string> {
    if |ms| == 0 then None
    else match ms[|ms| - 1] case StyleIs(id) => Some(id) case _ => StyleOf(ms[..|ms| - 1])
  }

  predicate HasContent(ms: seq<Mark>) {
    !Blank(TextOf(ms)) || Image in ms
  }

  // A break ahead of all the paragraph's content.
  predicate BreaksBefore(ms: seq<Mark>) {
    exists i :: 0 <= i < |ms| && (ms[i].OwnBreak? || (ms[i].PageBreak? && !HasContent(ms[..i])))
  }

  predicate Raises(ms: seq<Mark>, i: nat)
    requires i < |ms|
  {
    ms[i].Section? || (ms[i].PageBreak? && HasContent(ms[..i]))
  }

  // A hard break after content, or a section break that is not continuous.
  predicate BreaksAfter(ms: seq<Mark>) {
    exists i :: 0 <= i < |ms| && Raises(ms, i) && forall j :: i < j < |ms| ==> !ms[j].Continuous?
  }

  // Paragraph j asks for a new page for whatever is kept next.
  predicate PassesOn(ms: seq<Mark>) {
    BreaksAfter(ms) || (!HasContent(ms) && BreaksBefore(ms))
  }

  // Some paragraph before k asks for a new page, and only blank ones lie between.
  predicate Carried(ps: seq<seq<Mark>>, k: nat)
    requires k <= |ps|
  {
    exists j :: 0 <= j < k && PassesOn(ps[j]) && forall i :: j < i < k ==> !HasContent(ps[i])
  }

  function Read(st: Styles, ms: seq<Mark>, carried: bool): Para {
    Para(
      if StyleOf(ms).Some? then st.Resolve(StyleOf(ms).value) else "normal",
      Trim(TextOf(ms)), Image in ms, BreaksBefore(ms) || carried)
  }

  /** The paragraphs with content, in order, each with a break before it or not. */
  function Reading(st: Styles, ps: seq<seq<Mark>>): seq<Para> {
    if |ps| == 0 then [] else
      var n := |ps| - 1;
      Reading(st, ps[..n]) + if HasContent(ps[n]) then [Read(st, ps[n], Carried(ps, n))] else []
  }

  // ---- What the reading says of a document ----

  /** The style a paragraph has by its marks: that of its last style mark, named by the table where the
      table has a name for it and by its own normal form where not; "normal" without a style mark. */
  predicate StyledAs(st: Styles, ms: seq<Mark>, style: string) {
    && (forall i :: 0 <= i < |ms| && ms[i].StyleIs? && (forall j :: i < j < |ms| ==> !ms[j].StyleIs?) ==>
          style == if ms[i].id in st.names && st.names[ms[i].id] != "" then st.names[ms[i].id] else st.norm(ms[i].id))
    && ((forall i :: 0 <= i < |ms| ==> !ms[i].StyleIs?) ==> style == "normal")
  }

  lemma {:induction false} LastStyle(ms: seq<Mark>)
    ensures StyleOf(ms).None? <==> forall i :: 0 <= i < |ms| ==> !ms[i].StyleIs?
    ensures forall i :: 0 <= i < |ms| && ms[i].StyleIs? && (forall j :: i < j < |ms| ==> !ms[j].StyleIs?) ==>
      StyleOf(ms) == Some(ms[i].id)
  {
    if |ms| > 0 {
      var front := ms[..|ms| - 1];
      LastStyle(front);
      assert forall i :: 0 <= i < |front| ==> front[i] == ms[i];
    }
  }

  function ContentCount(ps: seq<seq<Mark>>): nat {
    if |ps| == 0 then 0 else ContentCount(ps[..|ps| - 1]) + if HasContent(ps[|ps| - 1]) then 1 else 0
  }

  // Paragraph k as it is kept, behind those before it.
  predicate KeptAs(st: Styles, ps: seq<seq<Mark>>, k: nat, out: seq<Para>)
    requires k < |ps|
  {
    var at := ContentCount(ps[..k]);
    && at < |out| && StyledAs(st, ps[k], out[at].style)
    && out[at].text == Trim(TextOf(ps[k])) && out[at].image == (Image in ps[k])
    && out[at].breakBefore == (BreaksBefore(ps[k]) || Carried(ps, k))
  }

  /** Each paragraph with content is kept once, in order, under the style its marks and the table
      give it; the others are not kept. */
  lemma {:induction false} ReadingSays(st: Styles, ps: seq<seq<Mark>>)
    ensures |Reading(st, ps)| == ContentCount(ps)
    ensures forall k :: 0 <= k < |ps| && HasContent(ps[k]) ==> KeptAs(st, ps, k, Reading(st, ps))
  {
    if |ps| > 0 {
      var n := |ps| - 1;
      ReadingSays(st, ps[..n]);
      LastStyle(ps[n]);
      forall k | 0 <= k < n && HasContent(ps[k]) ensures KeptAs(st, ps, k, Reading(st, ps)) {
        assert ps[..n][k] == ps[k] && ps[..n][..k] == ps[..k];
        assert KeptAs(st, ps[..n], k, Reading(st, ps[..n]));
        CarriedEarlier(ps, k, n);
      }
    }
  }

  lemma CarriedEarlier(ps: seq<seq<Mark>>, k: nat, n: nat)
    requires k <= n <= |ps|
    ensures Carried(ps[..n], k) <==> Carried(ps, k)
  {
    assert forall j :: 0 <= j < n ==> ps[..n][j] == ps[j];
    if Carried(ps, k) {
      var j :| 0 <= j < k && PassesOn(ps[j]) && forall i :: j < i < k ==> !HasContent(ps[i]);
      assert PassesOn(ps[..n][j]) && forall i :: j < i < k ==> !HasContent(ps[..n][i]);
    }
    if Carried(ps[..n], k) {
      var j :| 0 <= j < k && PassesOn(ps[..n][j]) && forall i :: j < i < k ==> !HasContent(ps[..n][i]);
      assert PassesOn(ps[j]) && forall i :: j < i < k ==> !HasContent(ps[i]);
    }
  }

  // What stands in a run: text, a tab, a break by its sort, a drawing or an old picture.
  datatype Piece = Words(text: string) | TabPiece | BreakPiece(sort: string) | DrawingPiece | PictPiece

  function Meaning(p: Piece): seq<Mark> {
    match p
    case Words(text) => [Text(text)]
    case TabPiece => [Text(" ")]
    case BreakPiece(sort) =>
      if sort == "page" then [PageBreak] else if sort == "" || sort == "textWrapping" then [Text(" ")] else []
    case DrawingPiece => [Image]
    case PictPiece => [Image]
  }

  function Meanings(pieces: seq<Piece>): seq<Mark> {
    if |pieces| == 0 then [] else Meaning(pieces[0]) + Meanings(pieces[1..])
  }

  function RunTag(p: Piece): Tag {
    match p
    case Words(_) => T
    case TabPiece => Tab
    case BreakPiece(sort) => Br(sort)
    case DrawingPiece => Drawing
    case PictPiece => Pict
  }

  // Runs of one piece each.
  function Runs(pieces: seq<Piece>): Forest {
    if |pieces| == 0 then Nil
    else
      var kids := if pieces[0].Words? then Chars(pieces[0].text, Nil) else Nil;
      Elem(Other("r"), Elem(RunTag(pieces[0]), kids, Nil), Runs(pieces[1..]))
  }

  /** A run's text is text, its tabs and line breaks are spaces, a page break is one, other breaks are
      nothing, and drawings and pictures are images. */
  lemma {:induction false} RunsSay(pieces: seq<Piece>)
    ensures Regular(Runs(pieces), false)
    ensures Marks(Runs(pieces), false) == Meanings(pieces)
  {
    if |pieces| > 0 {
      RunsSay(pieces[1..]);
      RunSays(pieces[0]);
      var run := Elem(RunTag(pieces[0]), if pieces[0].Words? then Chars(pieces[0].text, Nil) else Nil, Nil);
      assert ElemMarks(Other("r"), run, false) == [] + Marks(run, false) == Marks(run, false);
    }
  }

  lemma RunSays(p: Piece)
    ensures var run := Elem(RunTag(p), if p.Words? then Chars(p.text, Nil) else Nil, Nil);
      Regular(run, false) && Marks(run, false) == Meaning(p)
  {
    var kids := if p.Words? then Chars(p.text, Nil) else Nil;
    if p.Words? {
      assert AllChars(kids) == p.text + "" == p.text;
    } else {
      assert TagMarks(RunTag(p), false) + [] == TagMarks(RunTag(p), false);
    }
    assert ElemMarks(RunTag(p), kids, false) + [] == ElemMarks(RunTag(p), kids, false);
  }

  // ---- The machine computes the reading ----

  lemma {:induction false} ApplyConcat(st: Styles, s: State, a: seq<Mark>, b: seq<Mark>)
    requires s.cur.Some?
    ensures ApplyAll(st, s, a + b) == ApplyAll(st, ApplyAll(st, s, a), b)
  {
    if |b| == 0 {
      assert a + b == a;
    } else {
      var n := |b| - 1;
      ApplyConcat(st, s, a, b[..n]);
      assert (a + b)[..|a + b| - 1] == a + b[..n];
    }
  }

  lemma RunElem(st: Styles, s: State, tag: Tag, kids: Forest, next: Forest)
    ensures Run(st, s, Flatten(Elem(tag, kids, next))) ==
            Run(st, EndStep(Run(st, StartStep(st, s, tag), Flatten(kids)), tag), Flatten(next))
  {
    var m, a, b := Machine(st), [Start(tag)], [End(tag)];
    FoldOne(m, s, Start(tag));
    FoldConcat(m, s, a, Flatten(kids));
    FoldOne(m, Fold(m, s, a + Flatten(kids)), End(tag));
    FoldConcat(m, s, a + Flatten(kids), b);
    FoldConcat(m, s, a + Flatten(kids) + b, Flatten(next));
  }

  lemma RunChars(st: Styles, s: State, text: string, next: Forest)
    ensures Run(st, s, Flatten(Chars(text, next))) == Run(st, Step(st, s, Characters(text)), Flatten(next))
  {
    FoldOne(Machine(st), s, Characters(text));
    FoldConcat(Machine(st), s, [Characters(text)], Flatten(next));
  }

  // Nothing inside a nested paragraph is taken.
  predicate Nested(s: State, t: State) {
    t == s.(inT := t.inT) && (!s.inT ==> !t.inT)
  }

  lemma NestedStart(st: Styles, s: State, tag: Tag)
    requires s.depth >= 2 && !s.inPPr
    ensures StartStep(st, s, tag) ==
            s.(depth := if tag.P? then s.depth + 1 else s.depth, inT := tag.T? || s.inT)
  {
  }

  lemma {:induction false} NestedIsIgnored(st: Styles, s: State, f: Forest)
    requires s.depth >= 2 && !s.inPPr
    ensures Nested(s, Run(st, s, Flatten(f)))
    decreases f
  {
    match f
    case Nil =>
    case Chars(text, next) =>
      RunChars(st, s, text, next);
      NestedIsIgnored(st, s, next);
    case Elem(tag, kids, next) =>
      RunElem(st, s, tag, kids, next);
      var t := StartStep(st, s, tag);
      NestedStart(st, s, tag);
      NestedIsIgnored(st, t, kids);
      var u := Run(st, t, Flatten(kids));
      NestedEnd(s, t, u, tag);
      NestedIsIgnored(st, EndStep(u, tag), next);
  }

  lemma NestedEnd(s: State, t: State, u: State, tag: Tag)
    requires s.depth >= 2 && !s.inPPr && Nested(t, u)
    requires t == s.(depth := if tag.P? then s.depth + 1 else s.depth, inT := tag.T? || s.inT)
    ensures Nested(s, EndStep(u, tag))
  {
  }

  lemma {:induction false} TextRun(st: Styles, s: State, f: Forest)
    requires s.depth == 1 && s.cur.Some? && s.inT && OnlyChars(f)
    ensures Run(st, s, Flatten(f)) == s.(text := s.text + AllChars(f))
    decreases f
  {
    match f
    case Nil =>
      assert s.text + "" == s.text;
    case Chars(text, next) =>
      RunChars(st, s, text, next);
      TextRun(st, s.(text := s.text + text), next);
      assert s.text + text + AllChars(next) == s.text + (text + AllChars(next));
  }

  lemma {:induction false} CharsAreSilent(st: Styles, s: State, f: Forest)
    requires s.depth == 0 && s.cur.None? && OnlyChars(f)
    ensures Run(st, s, Flatten(f)) == s
  {
    match f
    case Nil =>
    case Chars(text, next) =>
      RunChars(st, s, text, next);
      CharsAreSilent(st, s, next);
  }

  lemma {:induction false} SilentIsRegular(f: Forest, props: bool)
    requires Silent(f)
    ensures Regular(f, props) && Marks(f, props) == [] && !HasProps(f)
  {
    match f
    case Nil =>
    case Chars(_, next) => SilentIsRegular(next, props);
    case Elem(tag, kids, next) =>
      SilentIsRegular(kids, props);
      SilentIsRegular(next, props);
  }

  predicate InParagraph(s: State, props: bool) {
    s.depth == 1 && s.cur.Some? && !s.inT && s.inPPr == props
  }

  lemma OneMark(st: Styles, s: State, tag: Tag, props: bool)
    requires s.cur.Some?
    ensures ApplyAll(st, s, TagMarks(tag, props)) ==
            if |TagMarks(tag, props)| == 0 then s else Apply(st, s, TagMarks(tag, props)[0])
  {
    if |TagMarks(tag, props)| == 1 {
      assert TagMarks(tag, props)[..0] == [];
    }
  }

  lemma StartMarks(st: Styles, s: State, tag: Tag, props: bool)
    requires InParagraph(s, props) && !tag.P? && !tag.PPr? && !tag.T?
    ensures StartStep(st, s, tag) == ApplyAll(st, s, TagMarks(tag, props))
  {
    OneMark(st, s, tag, props);
  }

  /** Inside an outermost paragraph, the tokens of its children act as their marks. */
  lemma {:induction false} ChildrenActAsMarks(st: Styles, s: State, f: Forest, props: bool)
    requires InParagraph(s, props) && Regular(f, props)
    ensures Run(st, s, Flatten(f)) == ApplyAll(st, s, Marks(f, props)).(inPPr := props && !HasProps(f))
    decreases f, 0
  {
    match f
    case Nil =>
    case Chars(text, next) =>
      RunChars(st, s, text, next);
      ChildrenActAsMarks(st, s, next, props);
    case Elem(tag, kids, next) =>
      RunElem(st, s, tag, kids, next);
      ElementActsAsMarks(st, s, tag, kids, props);
      var t := EndStep(Run(st, StartStep(st, s, tag), Flatten(kids)), tag);
      ApplyConcat(st, s, ElemMarks(tag, kids, props), Marks(next, props));
      if t.inPPr == props {
        ChildrenActAsMarks(st, t, next, props);
      } else {
        SilentIsRegular(next, true);
        SilentIsRegular(next, false);
        ChildrenActAsMarks(st, t, next, false);
      }
  }

  lemma {:induction false} ElementActsAsMarks(st: Styles, s: State, tag: Tag, kids: Forest, props: bool)
    requires InParagraph(s, props) && RegularElem(tag, kids, props)
    ensures EndStep(Run(st, StartStep(st, s, tag), Flatten(kids)), tag) ==
            ApplyAll(st, s, ElemMarks(tag, kids, props)).(
              inPPr := props && !(tag.PPr? || (!tag.P? && HasProps(kids))))
    decreases kids, 2
  {
    match tag
    case P => NestedIsIgnored(st, StartStep(st, s, tag), kids);
    case T => TextActsAsMark(st, s, kids, props);
    case PPr => PropsActAsMarks(st, s, kids);
    case _ => OtherActsAsMarks(st, s, tag, kids, props);
  }

  lemma TextActsAsMark(st: Styles, s: State, kids: Forest, props: bool)
    requires InParagraph(s, props) && OnlyChars(kids)
    ensures EndStep(Run(st, StartStep(st, s, T), Flatten(kids)), T) == ApplyAll(st, s, [Text(AllChars(kids))])
    ensures !HasProps(kids)
  {
    TextRun(st, StartStep(st, s, T), kids);
    NoPropsInText(kids);
    assert ApplyAll(st, s, [Text(AllChars(kids))]) == Apply(st, ApplyAll(st, s, []), Text(AllChars(kids)));
  }

  lemma {:induction false} PropsActAsMarks(st: Styles, s: State, kids: Forest)
    requires s.depth == 1 && s.cur.Some? && !s.inT && Regular(kids, true)
    ensures EndStep(Run(st, StartStep(st, s, PPr), Flatten(kids)), PPr) ==
            ApplyAll(st, s, Marks(kids, true)).(inPPr := false)
    decreases kids, 1
  {
    var t := StartStep(st, s, PPr);
    ChildrenActAsMarks(st, t, kids, true);
    ApplyFlag(st, s, Marks(kids, true), true);
    assert Run(st, t, Flatten(kids)) == ApplyAll(st, t, Marks(kids, true)).(inPPr := !HasProps(kids));
  }

  lemma {:induction false} OtherActsAsMarks(st: Styles, s: State, tag: Tag, kids: Forest, props: bool)
    requires InParagraph(s, props) && RegularElem(tag, kids, props) && !tag.P? && !tag.PPr? && !tag.T?
    ensures EndStep(Run(st, StartStep(st, s, tag), Flatten(kids)), tag) ==
            ApplyAll(st, s, TagMarks(tag, props) + Marks(kids, props)).(inPPr := props && !HasProps(kids))
    decreases kids, 1
  {
    StartMarks(st, s, tag, props);
    ChildrenActAsMarks(st, StartStep(st, s, tag), kids, props);
    ApplyConcat(st, s, TagMarks(tag, props), Marks(kids, props));
  }

  lemma {:induction false} NoPropsInText(f: Forest)
    requires OnlyChars(f)
    ensures !HasProps(f)
  {
    if f.Chars? {
      NoPropsInText(f.next);
    }
  }

  lemma OneFlag(st: Styles, s: State, m: Mark, flag: bool)
    requires s.cur.Some?
    ensures Apply(st, s.(inPPr := flag), m) == Apply(st, s, m).(inPPr := flag)
  {
  }

  lemma {:induction false} ApplyFlag(st: Styles, s: State, ms: seq<Mark>, flag: bool)
    requires s.cur.Some?
    ensures ApplyAll(st, s.(inPPr := flag), ms) == ApplyAll(st, s, ms).(inPPr := flag)
  {
    if |ms| > 0 {
      var n := |ms| - 1;
      ApplyFlag(st, s, ms[..n], flag);
      OneFlag(st, ApplyAll(st, s, ms[..n]), ms[n], flag);
    }
  }

  // ---- One paragraph ----

  lemma BeforeSnoc(ms: seq<Mark>, m: Mark)
    ensures BreaksBefore(ms + [m]) <==> BreaksBefore(ms) || m.OwnBreak? || (m.PageBreak? && !HasContent(ms))
  {
    var all := ms + [m];
    assert all[..|ms|] == ms;
    forall i | 0 <= i < |ms| ensures all[..i] == ms[..i] && all[i] == ms[i] {}
    if BreaksBefore(ms) {
      var i :| 0 <= i < |ms| && (ms[i].OwnBreak? || (ms[i].PageBreak? && !HasContent(ms[..i])));
      assert all[i] == ms[i];
    }
    assert all[|ms|] == m;
  }

  lemma AfterSnoc(ms: seq<Mark>, m: Mark)
    ensures BreaksAfter(ms + [m]) <==>
            m.Section? || (m.PageBreak? && HasContent(ms)) || (BreaksAfter(ms) && !m.Continuous?)
  {
    var all := ms + [m];
    assert all[..|ms|] == ms && all[|ms|] == m;
    forall i | 0 <= i < |ms| ensures all[i] == ms[i] && (Raises(all, i) <==> Raises(ms, i)) {
      assert all[..i] == ms[..i];
    }
    if m.Section? || (m.PageBreak? && HasContent(ms)) {
      assert Raises(all, |ms|);
    }
    if BreaksAfter(ms) && !m.Continuous? {
      var i :| 0 <= i < |ms| && Raises(ms, i) && forall j :: i < j < |ms| ==> !ms[j].Continuous?;
      assert Raises(all, i);
    }
    if BreaksAfter(all) {
      var i :| 0 <= i < |all| && Raises(all, i) && forall j :: i < j < |all| ==> !all[j].Continuous?;
      if i == |ms| {
        assert Raises(all, |ms|);
      } else {
        assert Raises(ms, i) && !all[|ms|].Continuous?;
        assert forall j :: i < j < |ms| ==> !ms[j].Continuous? by {
          assert forall j :: i < j < |ms| ==> all[j] == ms[j];
        }
        assert BreaksAfter(ms);
      }
    }
  }

  predicate Fresh(s: State) {
    s.cur == Some(Para("normal", "", false, false)) && s.text == "" && !s.after
  }

  function StyleRead(st: Styles, ms: seq<Mark>): string {
    if StyleOf(ms).Some? then st.Resolve(StyleOf(ms).value) else "normal"
  }

  /** Applied to a fresh paragraph, the marks leave exactly what the reading says of them. */
  lemma {:induction false} MarksAreRead(st: Styles, s: State, ms: seq<Mark>)
    requires Fresh(s)
    ensures var r := ApplyAll(st, s, ms);
      && r.text == TextOf(ms) && r.after == BreaksAfter(ms)
      && r.cur.value == Para(StyleRead(st, ms), "", Image in ms, BreaksBefore(ms))
  {
    if |ms| > 0 {
      var n := |ms| - 1;
      var pre, m := ms[..n], ms[n];
      MarksAreRead(st, s, pre);
      assert ms == pre + [m];
      BeforeSnoc(pre, m);
      AfterSnoc(pre, m);
      BlankTrims(TextOf(pre));
      LastMark(st, ApplyAll(st, s, pre), pre, m);
    }
  }

  lemma LastMark(st: Styles, s: State, pre: seq<Mark>, m: Mark)
    requires s.cur == Some(Para(StyleRead(st, pre), "", Image in pre, BreaksBefore(pre)))
    requires s.text == TextOf(pre)
    requires Trim(TextOf(pre)) == "" <==> Blank(TextOf(pre))
    ensures var r := Apply(st, s, m);
      && r.text == TextOf(pre + [m])
      && r.cur.value.style == StyleRead(st, pre + [m])
      && r.cur.value.text == ""
      && r.cur.value.image == (Image in pre + [m])
      && r.cur.value.breakBefore == (BreaksBefore(pre) || m.OwnBreak? || (m.PageBreak? && !HasContent(pre)))
      && r.after == (m.Section? || (m.PageBreak? && HasContent(pre)) || (s.after && !m.Continuous?))
  {
    assert (pre + [m])[..|pre|] == pre;
  }

  // ---- The whole document ----

  predicate Between(s: State) {
    s.depth == 0 && s.cur.None? && s.text == "" && !s.after && !s.inT && !s.inPPr
  }

  function Take(st: Styles, s: State, ms: seq<Mark>): State {
    if HasContent(ms) then s.(out := s.out + [Read(st, ms, s.pending)], pending := BreaksAfter(ms))
    else s.(pending := s.pending || PassesOn(ms))
  }

  function Taker(st: Styles): (State, seq<Mark>) -> State {
    (s, ms) => Take(st, s, ms)
  }

  function TakeAll(st: Styles, s: State, ps: seq<seq<Mark>>): State {
    Fold(Taker(st), s, ps)
  }

  lemma {:induction false} TakenStaysBetween(st: Styles, s: State, ps: seq<seq<Mark>>)
    requires Between(s)
    ensures Between(TakeAll(st, s, ps))
  {
    if |ps| > 0 {
      TakenStaysBetween(st, s, ps[..|ps| - 1]);
    }
  }

  lemma ParagraphIsTaken(st: Styles, s: State, kids: Forest)
    requires Between(s) && Regular(kids, false)
    ensures EndStep(Run(st, StartStep(st, s, P), Flatten(kids)), P) == Take(st, s, Marks(kids, false))
  {
    var t := StartStep(st, s, P);
    var ms := Marks(kids, false);
    ChildrenActAsMarks(st, t, kids, false);
    MarksAreRead(st, t, ms);
    BlankTrims(TextOf(ms));
    var u := Run(st, t, Flatten(kids));
    assert u.cur.value == Para(StyleRead(st, ms), "", Image in ms, BreaksBefore(ms));
  }

  lemma {:induction false} DocumentIsTaken(st: Styles, s: State, f: Forest)
    requires Between(s) && Document(f)
    ensures Run(st, s, Flatten(f)) == TakeAll(st, s, Paragraphs(f))
    decreases f, 0
  {
    match f
    case Nil =>
    case Chars(text, next) =>
      RunChars(st, s, text, next);
      DocumentIsTaken(st, s, next);
    case Elem(tag, kids, next) =>
      RunElem(st, s, tag, kids, next);
      ElementIsTaken(st, s, tag, kids);
      FoldConcat(Taker(st), s, ElemParagraphs(tag, kids), Paragraphs(next));
      TakenStaysBetween(st, s, ElemParagraphs(tag, kids));
      DocumentIsTaken(st, TakeAll(st, s, ElemParagraphs(tag, kids)), next);
  }

  lemma {:induction false} ElementIsTaken(st: Styles, s: State, tag: Tag, kids: Forest)
    requires Between(s)
    requires if tag.P? then Regular(kids, false) else if tag.T? then OnlyChars(kids) else Document(kids)
    ensures EndStep(Run(st, StartStep(st, s, tag), Flatten(kids)), tag) == TakeAll(st, s, ElemParagraphs(tag, kids))
    decreases kids, 1
  {
    if tag.P? {
      ParagraphIsTaken(st, s, kids);
      FoldOne(Taker(st), s, Marks(kids, false));
    } else if tag.T? {
      CharsAreSilent(st, s.(inT := true), kids);
    } else {
      assert StartStep(st, s, tag) == s;
      DocumentIsTaken(st, s, kids);
      TakenStaysBetween(st, s, Paragraphs(kids));
    }
  }

  lemma CarriedNext(ps: seq<seq<Mark>>, n: nat)
    requires n < |ps|
    ensures Carried(ps, n + 1) <==> PassesOn(ps[n]) || (Carried(ps, n) && !HasContent(ps[n]))
  {
    if PassesOn(ps[n]) {
      assert Carried(ps, n + 1);
    }
    if Carried(ps, n) && !HasContent(ps[n]) {
      var j :| 0 <= j < n && PassesOn(ps[j]) && forall i :: j < i < n ==> !HasContent(ps[i]);
      assert PassesOn(ps[j]) && forall i :: j < i < n + 1 ==> !HasContent(ps[i]);
    }
    if Carried(ps, n + 1) {
      var j :| 0 <= j < n + 1 && PassesOn(ps[j]) && forall i :: j < i < n + 1 ==> !HasContent(ps[i]);
      assert j < n ==> PassesOn(ps[j]) && forall i :: j < i < n ==> !HasContent(ps[i]);
    }
  }

  lemma CarriedPrefix(ps: seq<seq<Mark>>, n: nat)
    requires n <= |ps|
    ensures Carried(ps[..n], n) <==> Carried(ps, n)
  {
    assert forall j :: 0 <= j < n ==> ps[..n][j] == ps[j];
    if Carried(ps, n) {
      var j :| 0 <= j < n && PassesOn(ps[j]) && forall i :: j < i < n ==> !HasContent(ps[i]);
      assert PassesOn(ps[..n][j]);
    }
  }

  lemma {:induction false} TakenIsReading(st: Styles, ps: seq<seq<Mark>>)
    ensures TakeAll(st, Initial(), ps).out == Reading(st, ps)
    ensures TakeAll(st, Initial(), ps).pending == Carried(ps, |ps|)
  {
    if |ps| > 0 {
      var n := |ps| - 1;
      TakenIsReading(st, ps[..n]);
      CarriedPrefix(ps, n);
      CarriedNext(ps, n);
    }
  }

  lemma {:induction false} FlattenedIsWhole(f: Forest)
    ensures Broken !in Flatten(f)
  {
    match f
    case Nil =>
    case Chars(_, next) => FlattenedIsWhole(next);
    case Elem(_, kids, next) => FlattenedIsWhole(kids); FlattenedIsWhole(next);
  }

  /** On any regular document the streaming pass returns the reading of its outermost paragraphs. */
  lemma StreamingIsReading(st: Styles, doc: Forest)
    requires Document(doc)
    ensures Flush(Run(st, Initial(), Flatten(doc))).out == Reading(st, Paragraphs(doc))
  {
    DocumentIsTaken(st, Initial(), doc);
    TakenStaysBetween(st, Initial(), Paragraphs(doc));
    TakenIsReading(st, Paragraphs(doc));
  }

  // ---- The loop ----

  method FlushParagraph(out0: seq<Para>, cur: Option<Para>, text: string, pending0: bool, after: bool)
    returns (out: seq<Para>, pending: bool)
    ensures forall inPPr, inT, depth ::
      var s := Flush(State(out0, cur, text, pending0, after, inPPr, inT, depth));
      s.out == out && s.pending == pending
  {
    out, pending := out0, pending0;
    if cur.Some? {
      var p := cur.value.(text := Trim(text));
      if p.text != "" || p.image {
        p := p.(breakBefore := p.breakBefore || pending);
        pending := after;
        out := out + [p];
      } else if p.breakBefore || after {
        pending := true;
      }
    }
  }

  method StartElement(st: Styles, tag: Tag, ghost out: seq<Para>, ghost pending: bool,
      cur0: Option<Para>, text0: string, after0: bool, inPPr0: bool, inT0: bool, depth0: int)
    returns (cur: Option<Para>, text: string, after: bool, inPPr: bool, inT: bool, depth: int)
    ensures State(out, cur, text, pending, after, inPPr, inT, depth) ==
            StartStep(st, State(out, cur0, text0, pending, after0, inPPr0, inT0, depth0), tag)
  {
    cur, text, after, inPPr, inT, depth := cur0, text0, after0, inPPr0, inT0, depth0;
    match tag {
      case P =>
        depth := depth + 1;
        if depth == 1 { cur := Some(Para("normal", "", false, false)); }
      case PPr => inPPr := depth == 1;
      case PStyle(id) =>
        if inPPr && cur.Some? { cur := Some(cur.value.(style := st.Resolve(id))); }
      case PageBreakBefore(val) =>
        if inPPr && cur.Some? && val != "0" && val != "false" {
          cur := Some(cur.value.(breakBefore := true));
        }
      case SectPr =>
        if inPPr { after := true; }
      case Type(kind) =>
        if inPPr && kind == "continuous" { after := false; }
      case Br(sort) =>
        if depth == 1 && cur.Some? {
          if sort == "page" {
            if Trim(text) == "" && !cur.value.image {
              cur := Some(cur.value.(breakBefore := true));
            } else {
              after := true;
            }
          } else if sort == "" || sort == "textWrapping" {
            text := text + " ";
          }
        }
      case Drawing =>
        if depth == 1 && cur.Some? { cur := Some(cur.value.(image := true)); }
      case Pict =>
        if depth == 1 && cur.Some? { cur := Some(cur.value.(image := true)); }
      case Tab =>
        if depth == 1 && cur.Some? { text := text + " "; }
      case T => inT := true;
      case Other(_) =>
    }
  }

  lemma RunNext(st: Styles, tokens: seq<Token>, i: nat)
    requires i < |tokens|
    ensures Run(st, Initial(), tokens[..i + 1]) == Step(st, Run(st, Initial(), tokens[..i]), tokens[i])
    ensures tokens[i] != Broken && Broken !in tokens[..i] ==> Broken !in tokens[..i + 1]
  {
    assert tokens[..i + 1] == tokens[..i] + [tokens[i]];
    FoldConcat(Machine(st), Initial(), tokens[..i], [tokens[i]]);
    FoldOne(Machine(st), Run(st, Initial(), tokens[..i]), tokens[i]);
  }

  method ParseDOCXParagraphs(tokens: seq<Token>, st: Styles) returns (r: Option<seq<Para>>)
    ensures r == if Broken in tokens then None else Some(Flush(Run(st, Initial(), tokens)).out)
    ensures forall doc :: Document(doc) && tokens == Flatten(doc) ==> r == Some(Reading(st, Paragraphs(doc)))
    ensures forall doc :: Document(doc) && tokens == Flatten(doc) ==>
      var ps := Paragraphs(doc);
      r.Some? && |r.value| == ContentCount(ps)
      && forall k :: 0 <= k < |ps| && HasContent(ps[k]) ==> KeptAs(st, ps, k, r.value)
  {
    r := ReadTokens(tokens, st);
    forall doc | Document(doc) && tokens == Flatten(doc)
      ensures var ps := Paragraphs(doc);
        r.Some? && |r.value| == ContentCount(ps)
        && forall k :: 0 <= k < |ps| && HasContent(ps[k]) ==> KeptAs(st, ps, k, r.value)
    {
      ReadingSays(st, Paragraphs(doc));
    }
  }

  method ReadTokens(tokens: seq<Token>, st: Styles) returns (r: Option<seq<Para>>)
    ensures r == if Broken in tokens then None else Some(Flush(Run(st, Initial(), tokens)).out)
    ensures forall doc :: Document(doc) && tokens == Flatten(doc) ==> r == Some(Reading(st, Paragraphs(doc)))
  {
    var out: seq<Para> := [];
    var cur: Option<Para> := None;
    var text := "";
    var pending, after, inPPr, inT := false, false, false, false;
    var depth := 0;
    var i := 0;
    while i < |tokens|
      invariant 0 <= i <= |tokens| && Broken !in tokens[..i]
      invariant State(out, cur, text, pending, after, inPPr, inT, depth) == Run(st, Initial(), tokens[..i])
    {
      var t := tokens[i];
      RunNext(st, tokens, i);
      if t == Broken {
        forall doc | Document(doc) && tokens == Flatten(doc) ensures false {
          FlattenedIsWhole(doc);
        }
        return None;
      }
      match t {
        case Start(tag) =>
          cur, text, after, inPPr, inT, depth :=
            StartElement(st, tag, out, pending, cur, text, after, inPPr, inT, depth);
        case End(tag) =>
          if tag.T? {
            inT := false;
          } else if tag.PPr? {
            inPPr := false;
          } else if tag.P? {
            if depth == 1 {
              out, pending := FlushParagraph(out, cur, text, pending, after);
              if cur.Some? { after, cur, text := false, None, ""; }
            }
            depth := depth - 1;
          }
        case Characters(more) =>
          if depth == 1 && cur.Some? && inT { text := text + more; }
      }
      i := i + 1;
    }
    assert tokens[..i] == tokens;
    out, pending := FlushParagraph(out, cur, text, pending, after);
    forall doc | Document(doc) && tokens == Flatten(doc) ensures out == Reading(st, Paragraphs(doc)) {
      StreamingIsReading(st, doc);
    }
    return Some(out);
  }
}
