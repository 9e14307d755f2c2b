/** Declared custom styles: their normal form, their Typst definitions and the names the filter calls. */
module CustomStyles {
  import opened Folds
  import opened Options
  import opened StyleNames
  import opened Words

  // One declared style; numbers that did not parse are absent.
  datatype Entry = Entry(
    name: string, wordStyle: string, kind: string, description: string, basedOn: string,
    indent: Option<int>, spaceBefore: Option<int>, preset: string, typst: string)

  // The spelling rules, the key a parent is matched on, and the text of the studio's own definitions.
  datatype Studio = Studio(
    sp: Spelling, key: string -> string, presetText: string -> string, parentText: Entry -> string)

  // ---- Parents ----

  function Parents(): seq<string> {
    ["Normal", "First Paragraph", "Heading 1", "Heading 2", "Heading 3", "Block Quote", "Epigraph", "Verse",
     "Code Block", "Section Break", "Copyright", "Signature", "Glossary Entry"]
  }

  function FirstWithKey(key: string -> string, ps: seq<string>, k: string): Option<string> {
    if |ps| == 0 then None else if key(ps[0]) == k then Some(ps[0]) else FirstWithKey(key, ps[1..], k)
  }

  function CharacterParent(k: string): string {
    if k in ["italic", "ital", "emph", "italics"] then "italic"
    else if k in ["small caps", "smallcaps", "sc", "small-caps"] then "small caps"
    else if k in ["code", "mono", "monospace"] then "code"
    else "none"
  }

  function ParagraphAlias(k: string): string {
    if k in ["body", "body text", "paragraph", "normal paragraph"] then "Normal"
    else if k in ["first para", "first-paragraph", "no indent"] then "First Paragraph"
    else if k in ["blockquote", "block-quote", "quote"] then "Block Quote"
    else if k in ["poem", "poetry"] then "Verse"
    else if k in ["code", "codeblock", "code-block"] then "Code Block"
    else if k in ["break", "section-break", "sectionbreak", "scene break"] then "Section Break"
    else if k in ["glossary", "glossary-entry"] then "Glossary Entry"
    else "Normal"
  }

  function ParentOf(key: string -> string, kind: string, basedOn: string): string {
    if kind == "character" then CharacterParent(key(basedOn))
    else
      var p := FirstWithKey(key, Parents(), key(basedOn));
      if p.Some? then p.value else ParagraphAlias(key(basedOn))
  }

  method NormalizeCustomStyleParent(key: string -> string, kind: string, basedOn: string) returns (parent: string)
    ensures parent == ParentOf(key, kind, basedOn)
  {
    var k := key(basedOn);
    if kind == "character" {
      return CharacterParent(k);
    }
    var ps := Parents();
    for i := 0 to |ps|
      invariant FirstWithKey(key, ps, k) == FirstWithKey(key, ps[i..], k)
    {
      if key(ps[i]) == k {
        return ps[i];
      }
      assert ps[i..][1..] == ps[i + 1..];
    }
    return ParagraphAlias(k);
  }

  // Keys tell the parents apart, and the character parents are their own keys.
  ghost predicate Telling(key: string -> string) {
    && (forall i, j :: 0 <= i < j < |Parents()| ==> key(Parents()[i]) != key(Parents()[j]))
    && key("italic") == "italic" && key("small caps") == "small caps" && key("code") == "code"
    && key("none") == "none"
  }

  lemma {:induction false} FirstFound(key: string -> string, ps: seq<string>, n: nat)
    requires n < |ps| && forall i, j :: 0 <= i < j < |ps| ==> key(ps[i]) != key(ps[j])
    ensures FirstWithKey(key, ps, key(ps[n])) == Some(ps[n])
    decreases n
  {
    if n > 0 {
      assert ps[1..][n - 1] == ps[n];
      FirstFound(key, ps[1..], n - 1);
    }
  }

  lemma {:induction false} FoundIsMember(key: string -> string, ps: seq<string>, k: string)
    ensures FirstWithKey(key, ps, k).Some? ==> FirstWithKey(key, ps, k).value in ps
  {
    if |ps| > 0 && key(ps[0]) != k {
      FoundIsMember(key, ps[1..], k);
    }
  }

  lemma AliasIsParent(k: string)
    ensures ParagraphAlias(k) in Parents()
  {
    var ps := Parents();
    assert ps[0] == "Normal" && ps[1] == "First Paragraph" && ps[5] == "Block Quote" && ps[7] == "Verse";
    assert ps[8] == "Code Block" && ps[9] == "Section Break" && ps[12] == "Glossary Entry";
  }

  /** A parent is its own parent: normalising it again changes nothing. */
  lemma ParentIsFixed(key: string -> string, kind: string, basedOn: string)
    requires Telling(key)
    ensures ParentOf(key, kind, ParentOf(key, kind, basedOn)) == ParentOf(key, kind, basedOn)
  {
    if kind != "character" {
      var k := key(basedOn);
      FoundIsMember(key, Parents(), k);
      AliasIsParent(k);
      var p := ParentOf(key, kind, basedOn);
      var n :| 0 <= n < |Parents()| && Parents()[n] == p;
      FirstFound(key, Parents(), n);
    }
  }

  // The thirteen names, told one by one.
  predicate ParentName(p: string) {
    || p == "Normal" || p == "First Paragraph" || p == "Heading 1" || p == "Heading 2" || p == "Heading 3"
    || p == "Block Quote" || p == "Epigraph" || p == "Verse" || p == "Code Block" || p == "Section Break"
    || p == "Copyright" || p == "Signature" || p == "Glossary Entry"
  }

  lemma ParentsAreNames(p: string)
    ensures p in Parents() <==> ParentName(p)
  {
    var ps := Parents();
    assert ps[0] == "Normal" && ps[1] == "First Paragraph" && ps[2] == "Heading 1" && ps[3] == "Heading 2";
    assert ps[4] == "Heading 3" && ps[5] == "Block Quote" && ps[6] == "Epigraph" && ps[7] == "Verse";
    assert ps[8] == "Code Block" && ps[9] == "Section Break" && ps[10] == "Copyright" && ps[11] == "Signature";
    assert ps[12] == "Glossary Entry";
  }

  /** A paragraph style that asks for a parent by its name has it. */
  lemma NameAsked(key: string -> string, kind: string, word: string, p: string)
    requires Telling(key) && kind != "character" && ParentName(p) && key(word) == key(p)
    ensures ParentOf(key, kind, word) == p
  {
    ParentsAreNames(p);
    var n :| 0 <= n < |Parents()| && Parents()[n] == p;
    FirstFound(key, Parents(), n);
  }

  // A word that is no parent's name.
  ghost predicate OtherWord(key: string -> string, word: string) {
    forall p :: ParentName(p) ==> key(p) != key(word)
  }

  lemma OtherWordFound(key: string -> string, kind: string, word: string)
    requires kind != "character" && OtherWord(key, word)
    ensures ParentOf(key, kind, word) == ParagraphAlias(key(word))
  {
    FoundHasKey(key, Parents(), key(word));
    if n :| 0 <= n < |Parents()| && key(Parents()[n]) == key(word) {
      ParentsAreNames(Parents()[n]);
    }
  }

  /** Any other word asks by these lists, and for the plain parent where it is in none of them. */
  lemma OtherWordAsked(key: string -> string, kind: string, word: string)
    requires kind != "character" && OtherWord(key, word)
    ensures var k, p := key(word), ParentOf(key, kind, word);
      && (k == "first para" || k == "first-paragraph" || k == "no indent" <==> p == "First Paragraph")
      && (k == "blockquote" || k == "block-quote" || k == "quote" <==> p == "Block Quote")
      && (k == "poem" || k == "poetry" <==> p == "Verse")
      && (k == "code" || k == "codeblock" || k == "code-block" <==> p == "Code Block")
      && (k == "break" || k == "section-break" || k == "sectionbreak" || k == "scene break" <==> p == "Section Break")
      && (k == "glossary" || k == "glossary-entry" <==> p == "Glossary Entry")
      && (p != "Normal" ==> p == "First Paragraph" || p == "Block Quote" || p == "Verse" || p == "Code Block"
                            || p == "Section Break" || p == "Glossary Entry")
  {
    OtherWordFound(key, kind, word);
  }

  lemma {:induction false} FoundHasKey(key: string -> string, ps: seq<string>, k: string)
    ensures FirstWithKey(key, ps, k).Some? ==> exists n :: 0 <= n < |ps| && key(ps[n]) == k
  {
    if |ps| > 0 && key(ps[0]) != k {
      FoundHasKey(key, ps[1..], k);
      if n :| 0 <= n < |ps| - 1 && key(ps[1..][n]) == k {
        assert key(ps[n + 1]) == k;
      }
    }
  }

  /** The words that ask for each parent of a character style; any other word asks for none. */
  lemma CharacterWords(key: string -> string, word: string)
    ensures var k, p := key(word), ParentOf(key, "character", word);
      && (p == "italic" <==> k in ["italic", "ital", "emph", "italics"])
      && (p == "small caps" <==> k in ["small caps", "smallcaps", "sc", "small-caps"])
      && (p == "code" <==> k in ["code", "mono", "monospace"])
      && p in ["italic", "small caps", "code", "none"]
  {
  }

  lemma ParentIsBare(key: string -> string, kind: string, basedOn: string)
    ensures ParentOf(key, kind, basedOn) != "" && Bare(ParentOf(key, kind, basedOn))
  {
    if kind != "character" {
      FoundIsMember(key, Parents(), key(basedOn));
      AliasIsParent(key(basedOn));
      var p := ParentOf(key, kind, basedOn);
      var n :| 0 <= n < |Parents()| && Parents()[n] == p;
      ParentsAreBare(n);
    }
  }

  lemma ParentsAreBare(n: nat)
    requires n < |Parents()|
    ensures Parents()[n] != "" && Bare(Parents()[n])
  {
  }

  // ---- Defaults ----

  function DefaultPreset(sp: Spelling, name: string, kind: string): string {
    var norm := Lowered(sp.lower, Trim(name));
    if kind == "character" then if norm == "metadata-c" then "metadata-inline" else "generic-inline"
    else if norm == "tweet-p" || norm == "tweet" then "tweet-block"
    else if norm == "metadata-p" then "metadata-paragraph"
    else if norm == "metadata-c" then "metadata-inline"
    else if norm == "tweet-p-ascii" then "ascii-block"
    else "generic-paragraph"
  }

  function DefaultTypst(studio: Studio, name: string, kind: string, preset: string): string {
    var p := if Trim(preset) == "" then DefaultPreset(studio.sp, name, kind) else Trim(preset);
    "#let " + Ident(studio.sp, name) + "(content) = {" + studio.presetText(p) + "}"
  }

  lemma DefaultIsBare(studio: Studio, name: string, kind: string, preset: string)
    ensures Bare(DefaultTypst(studio, name, kind, preset)) && DefaultTypst(studio, name, kind, preset) != ""
    ensures Bare(DefaultPreset(studio.sp, name, kind)) && DefaultPreset(studio.sp, name, kind) != ""
  {
  }

  // ---- Normal form ----

  function Clamped(n: int): int {
    if n < 0 then 0 else if n > 2 then 2 else n
  }

  predicate AllowsIndent(parent: string) {
    parent == "Verse" || parent == "Block Quote" || parent == "Code Block"
  }

  function IndentOf(parent: string, own: Option<int>, before: Option<int>): int {
    if !AllowsIndent(parent) then 0
    else if own.Some? then Clamped(own.value)
    else if before.Some? then Clamped(before.value)
    else 0
  }

  function SpaceOf(parent: string, own: Option<int>, before: Option<int>): int {
    var n := if own.Some? then own.value else if before.Some? then before.value else 1;
    if parent == "Section Break" && (n == 3 || n == 6) then n else 1
  }

  function Blank0(): Entry {
    Entry("", "", "", "", "", None, None, "", "")
  }

  function BasedOnOf(e: Entry, p: Entry): string {
    if Trim(e.basedOn) == "" then Trim(p.basedOn) else Trim(e.basedOn)
  }

  // An entry with neither a preset nor a snippet keeps those of the entry it replaces.
  function CodeFrom(e: Entry, p: Entry): Entry {
    if Trim(e.preset) == "" && Trim(e.typst) == "" then p else e
  }

  function PresetOf(sp: Spelling, name: string, kind: string, from: Entry): string {
    if Trim(from.preset) == "" then DefaultPreset(sp, name, kind) else Trim(from.preset)
  }

  function TypstOf(studio: Studio, name: string, kind: string, preset: string, from: Entry): string {
    if Trim(from.typst) == "" then DefaultTypst(studio, name, kind, preset) else Trim(from.typst)
  }

  function NameOf(e: Entry): string {
    Clean(Trim(e.name))
  }

  function WordOf(e: Entry): string {
    var word := Clean(Trim(e.wordStyle));
    if word == "" then NameOf(e) else word
  }

  function KindOf(e: Entry): string {
    if Trim(e.kind) == "character" then "character" else "paragraph"
  }

  // The spec form of an entry; what it leaves open is taken from the entry it replaces.
  function Normal(studio: Studio, e: Entry, prev: Option<Entry>): Option<Entry> {
    var p := if prev.Some? then prev.value else Blank0();
    if NameOf(e) == "" then None else
      var parent := ParentOf(studio.key, KindOf(e), BasedOnOf(e, p));
      var preset := PresetOf(studio.sp, NameOf(e), KindOf(e), CodeFrom(e, p));
      Some(Entry(NameOf(e), WordOf(e), KindOf(e), Trim(e.description), parent,
                 Some(IndentOf(parent, e.indent, p.indent)), Some(SpaceOf(parent, e.spaceBefore, p.spaceBefore)),
                 preset, TypstOf(studio, NameOf(e), KindOf(e), preset, CodeFrom(e, p))))
  }

  method NormalizeNumbers(parent: string, e: Entry, prev: Option<Entry>) returns (indent: int, space: int)
    ensures indent == IndentOf(parent, e.indent, if prev.Some? then prev.value.indent else None)
    ensures space == SpaceOf(parent, e.spaceBefore, if prev.Some? then prev.value.spaceBefore else None)
  {
    indent := 0;
    if e.indent.Some? {
      indent := e.indent.value;
    } else if prev.Some? && prev.value.indent.Some? {
      indent := prev.value.indent.value;
    }
    if !AllowsIndent(parent) || indent < 0 {
      indent := 0;
    }
    if indent > 2 {
      indent := 2;
    }
    space := 1;
    if e.spaceBefore.Some? {
      space := e.spaceBefore.value;
    } else if prev.Some? && prev.value.spaceBefore.Some? {
      space := prev.value.spaceBefore.value;
    }
    if parent != "Section Break" || (space != 3 && space != 6) {
      space := 1;
    }
  }

  method NormalizeCode(studio: Studio, name: string, kind: string, e: Entry, prev: Option<Entry>)
    returns (preset: string, typst: string)
    ensures var from := CodeFrom(e, if prev.Some? then prev.value else Blank0());
      preset == PresetOf(studio.sp, name, kind, from) && typst == TypstOf(studio, name, kind, preset, from)
  {
    preset, typst := Trim(e.preset), Trim(e.typst);
    if preset == "" && typst == "" && prev.Some? {
      preset, typst := Trim(prev.value.preset), Trim(prev.value.typst);
    }
    if preset == "" {
      preset := DefaultPreset(studio.sp, name, kind);
    }
    if typst == "" {
      typst := DefaultTypst(studio, name, kind, preset);
    }
    BareStays("");
  }

  lemma CodeIsNormal(studio: Studio, name: string, kind: string, from: Entry)
    ensures var preset := PresetOf(studio.sp, name, kind, from);
      var typst := TypstOf(studio, name, kind, preset, from);
      preset != "" && Bare(preset) && typst != "" && Bare(typst)
  {
    TrimIsBare(from.preset);
    TrimIsBare(from.typst);
    DefaultIsBare(studio, name, kind, PresetOf(studio.sp, name, kind, from));
  }

  // The number given, or else the one before.
  ghost predicate TakenFrom(own: Option<int>, before: Option<int>, n: int) {
    if own.Some? then n == own.value else before == Some(n)
  }

  // The indent: none but under three parents, where it is the number given cut to 0, 1 or 2.
  ghost predicate IndentSays(parent: string, own: Option<int>, before: Option<int>, indent: int) {
    && (parent != "Verse" && parent != "Block Quote" && parent != "Code Block" ==> indent == 0)
    && (parent == "Verse" || parent == "Block Quote" || parent == "Code Block" ==>
          && (forall n :: TakenFrom(own, before, n) ==>
                (n <= 0 ==> indent == 0) && (n == 1 ==> indent == 1) && (n >= 2 ==> indent == 2))
          && (own.None? && before.None? ==> indent == 0))
  }

  // The space before: three or six lines where a section break asks for them, one anywhere else.
  ghost predicate SpaceSays(parent: string, own: Option<int>, before: Option<int>, space: int) {
    && (space == 3 <==> parent == "Section Break" && TakenFrom(own, before, 3))
    && (space == 6 <==> parent == "Section Break" && TakenFrom(own, before, 6))
    && (space != 3 && space != 6 ==> space == 1)
  }

  // The preset a style of that name has when none is given.
  ghost predicate PresetSays(norm: string, kind: string, preset: string) {
    && (preset == "tweet-block" <==> kind != "character" && (norm == "tweet-p" || norm == "tweet"))
    && (preset == "metadata-paragraph" <==> kind != "character" && norm == "metadata-p")
    && (preset == "metadata-inline" <==> norm == "metadata-c")
    && (preset == "ascii-block" <==> kind != "character" && norm == "tweet-p-ascii")
    && (preset == "generic-inline" <==> kind == "character" && norm != "metadata-c")
    && (preset == "tweet-block" || preset == "metadata-paragraph" || preset == "metadata-inline"
        || preset == "ascii-block" || preset == "generic-inline" || preset == "generic-paragraph")
  }

  // What a field says where an entry gives neither a preset nor a snippet: what it said before.
  ghost predicate Carried(own: string, other: string, before: string, field: string) {
    && (Trim(own) != "" ==> field == Trim(own))
    && (Trim(own) == "" && Trim(other) == "" && Trim(before) != "" ==> field == Trim(before))
  }

  ghost predicate Open(own: string, other: string, before: string) {
    Trim(own) == "" && (Trim(other) == "" ==> Trim(before) == "")
  }

  ghost predicate CodeSays(studio: Studio, e: Entry, p: Entry, r: Entry) {
    && Carried(e.preset, e.typst, p.preset, r.preset) && Carried(e.typst, e.preset, p.typst, r.typst)
    && (Open(e.preset, e.typst, p.preset) ==> PresetSays(Lowered(studio.sp.lower, Trim(r.name)), r.kind, r.preset))
    && (Open(e.typst, e.preset, p.typst) ==>
          r.typst == "#let " + Ident(studio.sp, r.name) + "(content) = {" + studio.presetText(r.preset) + "}")
  }

  // Every field of the normal form of e, with p for the entry it replaces.
  ghost predicate FieldsSay(studio: Studio, e: Entry, p: Entry, r: Entry) {
    && r.name == Clean(e.name)
    && (Clean(e.wordStyle) != "" ==> r.wordStyle == Clean(e.wordStyle))
    && (Clean(e.wordStyle) == "" ==> r.wordStyle == Clean(e.name))
    && (r.kind == "character" <==> Trim(e.kind) == "character")
    && (r.kind == "character" || r.kind == "paragraph")
    && r.description == Trim(e.description)
    && (Trim(e.basedOn) != "" ==> r.basedOn == ParentOf(studio.key, r.kind, Trim(e.basedOn)))
    && (Trim(e.basedOn) == "" ==> r.basedOn == ParentOf(studio.key, r.kind, Trim(p.basedOn)))
    && r.indent.Some? && IndentSays(r.basedOn, e.indent, p.indent, r.indent.value)
    && r.spaceBefore.Some? && SpaceSays(r.basedOn, e.spaceBefore, p.spaceBefore, r.spaceBefore.value)
    && CodeSays(studio, e, p, r)
  }

  lemma NumbersSay(parent: string, a: Option<int>, b: Option<int>)
    ensures IndentSays(parent, a, b, IndentOf(parent, a, b))
    ensures SpaceSays(parent, a, b, SpaceOf(parent, a, b))
  {
  }

  lemma PresetIsSaid(sp: Spelling, name: string, kind: string)
    ensures PresetSays(Lowered(sp.lower, Trim(name)), kind, DefaultPreset(sp, name, kind))
  {
  }

  lemma CodeIsSaid(studio: Studio, e: Entry, p: Entry, r: Entry)
    requires r.preset == PresetOf(studio.sp, r.name, r.kind, CodeFrom(e, p))
    requires r.typst == TypstOf(studio, r.name, r.kind, r.preset, CodeFrom(e, p))
    ensures CodeSays(studio, e, p, r)
  {
    PresetIsSaid(studio.sp, r.name, r.kind);
    CodeIsNormal(studio, r.name, r.kind, CodeFrom(e, p));
    BareStays(r.preset);
  }

  /** The normal form, field by field. */
  lemma NormalSays(studio: Studio, e: Entry, prev: Option<Entry>)
    ensures Normal(studio, e, prev).None? <==> Clean(e.name) == ""
    ensures Normal(studio, e, prev).Some? ==>
              FieldsSay(studio, e, if prev.Some? then prev.value else Blank0(), Normal(studio, e, prev).value)
  {
    var p := if prev.Some? then prev.value else Blank0();
    CleanTrimmed(e.name);
    CleanTrimmed(e.wordStyle);
    if Clean(e.name) != "" {
      var r := Normal(studio, e, prev).value;
      NumbersSay(r.basedOn, e.indent, p.indent);
      NumbersSay(r.basedOn, e.spaceBefore, p.spaceBefore);
      CodeIsSaid(studio, e, p, r);
    }
  }

  method NormalizeCustomStyle(studio: Studio, e: Entry, prev: Option<Entry>) returns (r: Option<Entry>)
    ensures r == Normal(studio, e, prev)
    ensures r.None? <==> Clean(e.name) == ""
    ensures r.Some? && prev.Some? ==> FieldsSay(studio, e, prev.value, r.value)
    ensures r.Some? && prev.None? ==> FieldsSay(studio, e, Entry("", "", "", "", "", None, None, "", ""), r.value)
  {
    NormalSays(studio, e, prev);
    r := NormalizeFields(studio, e, prev);
  }

  method NormalizeFields(studio: Studio, e: Entry, prev: Option<Entry>) returns (r: Option<Entry>)
    ensures r == Normal(studio, e, prev)
  {
    var name := CleanStyleName(Trim(e.name));
    if name == "" {
      return None;
    }
    var wordStyle := CleanStyleName(Trim(e.wordStyle));
    if wordStyle == "" {
      wordStyle := name;
    }
    var kind := Trim(e.kind);
    if kind != "character" {
      kind := "paragraph";
    }
    var basedOn := Trim(e.basedOn);
    if basedOn == "" && prev.Some? {
      basedOn := Trim(prev.value.basedOn);
    }
    BareStays("");
    assert basedOn == BasedOnOf(e, if prev.Some? then prev.value else Blank0());
    var parent := NormalizeCustomStyleParent(studio.key, kind, basedOn);
    var indent, space := NormalizeNumbers(parent, e, prev);
    var preset, typst := NormalizeCode(studio, name, kind, e, prev);
    return Some(Entry(name, wordStyle, kind, Trim(e.description), parent, Some(indent), Some(space), preset, typst));
  }

  // Every field as normalisation leaves it.
  predicate NormalForm(studio: Studio, e: Entry) {
    && e.name != "" && Clean(e.name) == e.name && Bare(e.name)
    && e.wordStyle != "" && Clean(e.wordStyle) == e.wordStyle && Bare(e.wordStyle)
    && (e.kind == "character" || e.kind == "paragraph")
    && Bare(e.description)
    && e.basedOn != "" && Bare(e.basedOn) && ParentOf(studio.key, e.kind, e.basedOn) == e.basedOn
    && e.indent.Some? && 0 <= e.indent.value <= 2 && (e.indent.value > 0 ==> AllowsIndent(e.basedOn))
    && e.spaceBefore.Some? && e.spaceBefore.value in [1, 3, 6]
    && (e.spaceBefore.value != 1 ==> e.basedOn == "Section Break")
    && e.preset != "" && Bare(e.preset)
    && e.typst != "" && Bare(e.typst)
  }

  lemma NamesAreNormal(e: Entry)
    requires NameOf(e) != ""
    ensures Clean(NameOf(e)) == NameOf(e) && Bare(NameOf(e))
    ensures WordOf(e) != "" && Clean(WordOf(e)) == WordOf(e) && Bare(WordOf(e))
  {
    CleanIsClean(Trim(e.name));
    CleanIsClean(Trim(e.wordStyle));
  }

  lemma NumbersAreNormal(parent: string, a: Option<int>, b: Option<int>)
    ensures 0 <= IndentOf(parent, a, b) <= 2 && (IndentOf(parent, a, b) > 0 ==> AllowsIndent(parent))
    ensures SpaceOf(parent, a, b) == 1 || (SpaceOf(parent, a, b) in [3, 6] && parent == "Section Break")
  {
  }

  lemma NormalIsNormal(studio: Studio, e: Entry, prev: Option<Entry>)
    requires Telling(studio.key) && Normal(studio, e, prev).Some?
    ensures NormalForm(studio, Normal(studio, e, prev).value)
  {
    var p := if prev.Some? then prev.value else Blank0();
    var parent := ParentOf(studio.key, KindOf(e), BasedOnOf(e, p));
    NamesAreNormal(e);
    TrimIsBare(e.description);
    ParentIsFixed(studio.key, KindOf(e), BasedOnOf(e, p));
    ParentIsBare(studio.key, KindOf(e), BasedOnOf(e, p));
    NumbersAreNormal(parent, e.indent, p.indent);
    NumbersAreNormal(parent, e.spaceBefore, p.spaceBefore);
    CodeIsNormal(studio, NameOf(e), KindOf(e), CodeFrom(e, p));
  }

  lemma NormalFormStays(studio: Studio, e: Entry)
    requires NormalForm(studio, e)
    ensures Normal(studio, e, None) == Some(e)
  {
    BareStays(e.name);
    BareStays(e.wordStyle);
    BareStays(e.description);
    BareStays(e.basedOn);
    BareStays(e.preset);
    BareStays(e.typst);
    BareStays("character");
    BareStays("paragraph");
  }

  /** Normalising again, with nothing to fall back on, changes nothing. */
  lemma NormalTwice(studio: Studio, e: Entry, prev: Option<Entry>)
    requires Telling(studio.key) && Normal(studio, e, prev).Some?
    ensures Normal(studio, Normal(studio, e, prev).value, None) == Normal(studio, e, prev)
  {
    NormalIsNormal(studio, e, prev);
    NormalFormStays(studio, Normal(studio, e, prev).value);
  }

  // ---- The head of a definition ----

  predicate Spaces(s: string, from: nat, to: nat) {
    from <= to <= |s| && forall i :: from <= i < to ==> PatternSpace(s[i])
  }

  predicate IdentStart(c: char) {
    'A' <= c <= 'Z' || 'a' <= c <= 'z' || c == '_'
  }

  predicate IdentChar(c: char) {
    IdentStart(c) || '0' <= c <= '9' || c == '-'
  }

  predicate NameBetween(s: string, from: nat, to: nat) {
    from < to <= |s| && IdentStart(s[from]) && forall i :: from <= i < to ==> IdentChar(s[i])
  }

  predicate IsName(id: string) {
    NameBetween(id, 0, |id|)
  }

  function SpacesEnd(s: string, from: nat): (to: nat)
    requires from <= |s|
    ensures Spaces(s, from, to) && (to < |s| ==> !PatternSpace(s[to]))
    decreases |s| - from
  {
    if from == |s| || !PatternSpace(s[from]) then from else SpacesEnd(s, from + 1)
  }

  function NameEnd(s: string, from: nat): (to: nat)
    requires from <= |s|
    ensures from <= to <= |s| && (forall i :: from <= i < to ==> IdentChar(s[i])) && (to < |s| ==> !IdentChar(s[to]))
    decreases |s| - from
  {
    if from == |s| || !IdentChar(s[from]) then from else NameEnd(s, from + 1)
  }

  predicate LetAt(s: string, a: nat) {
    a + 4 <= |s| && s[a] == '#' && s[a + 1] == 'l' && s[a + 2] == 'e' && s[a + 3] == 't'
  }

  datatype Head = Head(start: nat, end: nat)

  // Where the name stands in "#let name(".
  function FindHead(s: string): (r: Option<Head>)
    ensures r.Some? ==> r.value.start < r.value.end <= |s|
  {
    var a := SpacesEnd(s, 0);
    if !LetAt(s, a) then None else
      var b := SpacesEnd(s, a + 4);
      if b == a + 4 || b == |s| || !IdentStart(s[b]) then None else
        var c := NameEnd(s, b);
        var d := SpacesEnd(s, c);
        if d < |s| && s[d] == '(' then Some(Head(b, c)) else None
  }

  function Defines(s: string): Option<string> {
    var h := FindHead(s);
    if h.None? then None else Some(s[h.value.start..h.value.end])
  }

  // A text that starts like a definition up to the name, then a name, then spaces and a bracket.
  predicate HeadAt(s: string, a: nat, b: nat, c: nat, d: nat) {
    && Spaces(s, 0, a) && LetAt(s, a) && a + 4 < b && Spaces(s, a + 4, b)
    && NameBetween(s, b, c) && Spaces(s, c, d) && d < |s| && s[d] == '('
  }

  lemma FoundIsAt(s: string)
    requires FindHead(s).Some?
    ensures var h := FindHead(s).value; HeadAt(s, SpacesEnd(s, 0), h.start, h.end, SpacesEnd(s, h.end))
  {
  }

  lemma SpacesEndIs(s: string, from: nat, to: nat)
    requires Spaces(s, from, to) && to < |s| && !PatternSpace(s[to])
    ensures SpacesEnd(s, from) == to
  {
  }

  lemma NameEndIs(s: string, from: nat, to: nat)
    requires NameBetween(s, from, to) && to < |s| && !IdentChar(s[to])
    ensures NameEnd(s, from) == to
  {
  }

  lemma AtIsFound(s: string, a: nat, b: nat, c: nat, d: nat)
    requires HeadAt(s, a, b, c, d)
    ensures FindHead(s) == Some(Head(b, c)) && Defines(s) == Some(s[b..c])
  {
    SpacesEndIs(s, 0, a);
    SpacesEndIs(s, a + 4, b);
    NameEndIs(s, b, c);
    SpacesEndIs(s, c, d);
  }

  // The head of a snippet rewritten to the name of the day.
  function Rewritten(snippet: string, ident: string): string {
    var h := FindHead(snippet);
    if h.None? || snippet[h.value.start..h.value.end] == ident then snippet
    else snippet[..h.value.start] + ident + snippet[h.value.end..]
  }

  /** A snippet that starts with a #let of a function defines the name asked for once its head is rewritten. */
  lemma RewrittenDefines(snippet: string, ident: string)
    requires IsName(ident)
    ensures Defines(Rewritten(snippet, ident)) == if FindHead(snippet).Some? then Some(ident) else None
  {
    var h := FindHead(snippet);
    if h.Some? && snippet[h.value.start..h.value.end] != ident {
      FoundIsAt(snippet);
      Moved(snippet, ident, SpacesEnd(snippet, 0), h.value.start, h.value.end, SpacesEnd(snippet, h.value.end));
    }
  }

  lemma Moved(s: string, ident: string, a: nat, b: nat, c: nat, d: nat)
    requires HeadAt(s, a, b, c, d) && IsName(ident)
    ensures Defines(s[..b] + ident + s[c..]) == Some(ident)
  {
    var t := s[..b] + ident + s[c..];
    var e := b + |ident|;
    assert forall i :: 0 <= i < b ==> t[i] == s[i];
    assert forall i :: b <= i < e ==> t[i] == ident[i - b];
    assert forall i :: e <= i < |t| ==> t[i] == s[i - e + c];
    assert t[b..e] == ident;
    AtIsFound(t, a, b, e, e + (d - c));
  }

  // ---- Definitions ----

  datatype Source = Snippet | Preset | Parent

  predicate HandWritten(studio: Studio, e: Entry) {
    e.typst != "" && Trim(e.typst) != Trim(DefaultTypst(studio, e.name, e.kind, e.preset))
  }

  function SourceOf(studio: Studio, e: Entry): Source {
    if HandWritten(studio, e) then Snippet
    else if e.preset in ["tweet-block", "metadata-paragraph", "metadata-inline", "ascii-block"] then Preset
    else Parent
  }

  // The definition for one declared style; empty when it has no name.
  function Definition(studio: Studio, m: Entry): string {
    var n := Normal(studio, m, None);
    if n.None? then "" else
      var e := n.value;
      var ident := Ident(studio.sp, e.name);
      match SourceOf(studio, e)
      case Snippet => Rewritten(e.typst, ident)
      case Preset => DefaultTypst(studio, e.name, e.kind, e.preset)
      case Parent => "#let " + ident + "(content) = " + studio.parentText(e)
  }

  predicate Designed(preset: string) {
    || preset == "tweet-block" || preset == "metadata-paragraph" || preset == "metadata-inline"
    || preset == "ascii-block"
  }

  // A snippet of the customer's own is one that differs from what the studio would have written.
  predicate OwnSnippet(studio: Studio, e: Entry) {
    e.typst != "#let " + Ident(studio.sp, e.name) + "(content) = {" + studio.presetText(e.preset) + "}"
  }

  // Only the name in the head is another.
  ghost predicate Renamed(snippet: string, ident: string, code: string) {
    exists left: string, name: string, right: string ::
      snippet == left + name + right && code == left + ident + right && Defines(snippet) == Some(name)
  }

  ghost predicate DefinitionSays(studio: Studio, e: Entry, code: string) {
    var ident := Ident(studio.sp, e.name);
    && (OwnSnippet(studio, e) ==>
          if Defines(e.typst).Some? then Renamed(e.typst, ident, code) else code == e.typst)
    && (!OwnSnippet(studio, e) && Designed(e.preset) ==>
          code == "#let " + ident + "(content) = {" + studio.presetText(e.preset) + "}")
    && (!OwnSnippet(studio, e) && !Designed(e.preset) ==>
          code == "#let " + ident + "(content) = " + studio.parentText(e))
  }

  lemma RewrittenIsRenamed(snippet: string, ident: string)
    ensures Defines(snippet).Some? ==> Renamed(snippet, ident, Rewritten(snippet, ident))
    ensures Defines(snippet).None? ==> Rewritten(snippet, ident) == snippet
  {
    var h := FindHead(snippet);
    if h.Some? {
      var left, name, right := snippet[..h.value.start], snippet[h.value.start..h.value.end], snippet[h.value.end..];
      assert snippet == left + name + right;
      assert Rewritten(snippet, ident) == left + ident + right;
    }
  }

  lemma NormalCodeIsBare(studio: Studio, m: Entry)
    requires Normal(studio, m, None).Some?
    ensures var e := Normal(studio, m, None).value;
      Trim(e.preset) == e.preset && e.preset != "" && Trim(e.typst) == e.typst && e.typst != ""
  {
    var e := Normal(studio, m, None).value;
    CodeIsNormal(studio, e.name, e.kind, CodeFrom(m, Blank0()));
    BareStays(e.preset);
    BareStays(e.typst);
  }

  lemma SourceIs(studio: Studio, m: Entry)
    requires Normal(studio, m, None).Some?
    ensures var e := Normal(studio, m, None).value;
      && (SourceOf(studio, e) == Snippet <==> OwnSnippet(studio, e))
      && (SourceOf(studio, e) == Preset <==> !OwnSnippet(studio, e) && Designed(e.preset))
  {
    var e := Normal(studio, m, None).value;
    NormalCodeIsBare(studio, m);
    DefaultIsBare(studio, e.name, e.kind, e.preset);
    BareStays(DefaultTypst(studio, e.name, e.kind, e.preset));
  }

  /** A snippet of one's own goes before a designed preset, and that before the parent. */
  lemma DefinitionMeans(studio: Studio, m: Entry)
    requires Normal(studio, m, None).Some?
    ensures DefinitionSays(studio, Normal(studio, m, None).value, Definition(studio, m))
  {
    var e := Normal(studio, m, None).value;
    SourceIs(studio, m);
    NormalCodeIsBare(studio, m);
    RewrittenIsRenamed(e.typst, Ident(studio.sp, e.name));
  }

  lemma IdentIsName(sp: Spelling, name: string)
    requires sp.Free()
    ensures IsName(Ident(sp, name))
  {
    IdentIsWellFormed(sp, name);
  }

  lemma LetDefines(ident: string, rest: string)
    requires IsName(ident)
    ensures Defines("#let " + ident + "(" + rest) == Some(ident)
  {
    var s := "#let " + ident + "(" + rest;
    assert forall i :: 5 <= i < 5 + |ident| ==> s[i] == ident[i - 5];
    assert s[5..5 + |ident|] == ident;
    AtIsFound(s, 0, 5, 5 + |ident|, 5 + |ident|);
  }

  /**
   * A named style's definition defines the very identifier the filter calls, unless it is a
   * hand-written snippet that does not start with a #let of a function.
   */
  lemma DefinitionDefines(studio: Studio, m: Entry)
    requires studio.sp.Free() && NameOf(m) != ""
    ensures var e := Normal(studio, m, None).value;
      Defines(Definition(studio, m)) == Some(Ident(studio.sp, e.name)) <==>
      !(SourceOf(studio, e) == Snippet && FindHead(e.typst).None?)
  {
    var e := Normal(studio, m, None).value;
    IdentIsName(studio.sp, e.name);
    match SourceOf(studio, e)
    case Snippet => RewrittenDefines(e.typst, Ident(studio.sp, e.name));
    case Preset => DefaultDefines(studio, e.name, e.kind, e.preset);
    case Parent => ParentDefines(studio, e);
  }

  lemma DefaultDefines(studio: Studio, name: string, kind: string, preset: string)
    requires studio.sp.Free()
    ensures Defines(DefaultTypst(studio, name, kind, preset)) == Some(Ident(studio.sp, name))
  {
    var p := if Trim(preset) == "" then DefaultPreset(studio.sp, name, kind) else Trim(preset);
    var ident, rest := Ident(studio.sp, name), "content) = {" + studio.presetText(p) + "}";
    IdentIsName(studio.sp, name);
    LetDefines(ident, rest);
    LetBlock(ident, studio.presetText(p));
  }

  lemma LetBlock(ident: string, text: string)
    ensures "#let " + ident + "(content) = {" + text + "}" == "#let " + ident + "(" + ("content) = {" + text + "}")
  {
    assert "(content) = {" == "(" + "content) = {";
  }

  lemma ParentDefines(studio: Studio, e: Entry)
    requires studio.sp.Free()
    ensures Defines("#let " + Ident(studio.sp, e.name) + "(content) = " + studio.parentText(e)) ==
            Some(Ident(studio.sp, e.name))
  {
    var ident, rest := Ident(studio.sp, e.name), "content) = " + studio.parentText(e);
    IdentIsName(studio.sp, e.name);
    LetDefines(ident, rest);
    assert "#let " + ident + "(content) = " + studio.parentText(e) == "#let " + ident + "(" + rest;
  }

  // ---- What the filter is told, and what the config holds ----

  datatype Declared = Declared(wordStyle: string, ident: string, kind: string, coalesce: bool)

  // The lines of a poem or a signature are one block: the filter merges them.
  predicate Coalesces(studio: Studio, m: Entry) {
    var n := Normal(studio, m, None);
    n.Some? && SourceOf(studio, n.value) == Parent && n.value.kind != "character" &&
    (n.value.basedOn == "Verse" || n.value.basedOn == "Signature")
  }

  function DeclaredOf(studio: Studio, m: Entry): Declared {
    var name, word := Clean(m.name), Clean(m.wordStyle);
    Declared(if word == "" then name else word, Ident(studio.sp, name),
             if m.kind == "character" then "character" else "paragraph", Coalesces(studio, m))
  }

  function HasName(): Entry -> bool {
    (m: Entry) => Clean(m.name) != ""
  }

  function NamedOnly(ms: seq<Entry>): seq<Entry> {
    Kept(HasName(), ms)
  }

  // What the filter is told of a named style: its word style or name, its identifier, its kind, and
  // whether its paragraphs are one block.
  ghost predicate DeclaredSays(studio: Studio, m: Entry, d: Declared) {
    && (Clean(m.wordStyle) != "" ==> d.wordStyle == Clean(m.wordStyle))
    && (Clean(m.wordStyle) == "" ==> d.wordStyle == Clean(m.name))
    && d.ident == Ident(studio.sp, Clean(m.name))
    && (d.kind == "character" <==> m.kind == "character") && (d.kind == "character" || d.kind == "paragraph")
    && (d.coalesce <==> exists e :: Normal(studio, m, None) == Some(e) && !OwnSnippet(studio, e)
                                    && !Designed(e.preset) && e.kind == "paragraph"
                                    && (e.basedOn == "Verse" || e.basedOn == "Signature"))
  }

  lemma DeclaredIsSaid(studio: Studio, m: Entry)
    requires Clean(m.name) != ""
    ensures DeclaredSays(studio, m, DeclaredOf(studio, m))
  {
    CleanTrimmed(m.name);
    SourceIs(studio, m);
  }

  /** A row with neither preset nor snippet is merged exactly when it is a paragraph style over Verse or
      Signature whose name has no designed preset of its own. */
  lemma PlainRowCoalesces(studio: Studio, m: Entry)
    requires Clean(m.name) != "" && Trim(m.preset) == "" && Trim(m.typst) == ""
    ensures DeclaredOf(studio, m).coalesce <==>
            var norm := Lowered(studio.sp.lower, Clean(m.name));
            var parent := ParentOf(studio.key, "paragraph", Trim(m.basedOn));
            && Trim(m.kind) != "character" && (parent == "Verse" || parent == "Signature")
            && norm != "tweet-p" && norm != "tweet" && norm != "metadata-p" && norm != "metadata-c"
            && norm != "tweet-p-ascii"
  {
    CleanTrimmed(m.name);
    NormalSays(studio, m, None);
    SourceIs(studio, m);
    CleanIsClean(m.name);
    BareStays(Clean(m.name));
    BareStays("");
  }

  // The places of the named rows, in order.
  ghost predicate NamedAt(ms: seq<Entry>, at: seq<nat>) {
    Places((m: Entry) => Clean(m.name) != "", ms, at)
  }

  method DeclareStyle(studio: Studio, m: Entry, name: string) returns (d: Declared)
    requires name == Clean(m.name)
    ensures d == DeclaredOf(studio, m)
  {
    var word := CleanStyleName(m.wordStyle);
    if word == "" {
      word := name;
    }
    var kind := m.kind;
    if kind != "character" {
      kind := "paragraph";
    }
    var ident := TypstStyleIdent(studio.sp, name);
    var coalesce := Coalesces(studio, m);
    d := Declared(word, ident, kind, coalesce);
  }

  function DeclaredAll(studio: Studio, ms: seq<Entry>): (ds: seq<Declared>)
    ensures |ds| == |ms|
  {
    seq(|ms|, i requires 0 <= i < |ms| => DeclaredOf(studio, ms[i]))
  }

  lemma NamedNext(ms: seq<Entry>, i: nat)
    requires i < |ms|
    ensures NamedOnly(ms[..i + 1]) ==
            if Clean(ms[i].name) == "" then NamedOnly(ms[..i]) else NamedOnly(ms[..i]) + [ms[i]]
  {
    assert ms[..i + 1][..i] == ms[..i];
  }

  lemma DeclaredNext(studio: Studio, ms: seq<Entry>, m: Entry)
    ensures DeclaredAll(studio, ms + [m]) == DeclaredAll(studio, ms) + [DeclaredOf(studio, m)]
  {
  }

  method DeclaredStylesForPandoc(studio: Studio, ms: seq<Entry>) returns (out: seq<Declared>, ghost at: seq<nat>)
    ensures out == DeclaredAll(studio, NamedOnly(ms))
    ensures NamedAt(ms, at) && |out| == |at|
    ensures forall k :: 0 <= k < |out| ==> DeclaredSays(studio, ms[at[k]], out[k])
  {
    at := KeptPlaces(HasName(), ms);
    forall k | 0 <= k < |at| ensures DeclaredSays(studio, ms[at[k]], DeclaredOf(studio, NamedOnly(ms)[k])) {
      DeclaredIsSaid(studio, ms[at[k]]);
    }
    out := DeclareAll(studio, ms);
  }

  method DeclareAll(studio: Studio, ms: seq<Entry>) returns (out: seq<Declared>)
    ensures out == DeclaredAll(studio, NamedOnly(ms))
  {
    out := [];
    for i := 0 to |ms|
      invariant out == DeclaredAll(studio, NamedOnly(ms[..i]))
    {
      NamedNext(ms, i);
      var name := CleanStyleName(ms[i].name);
      if name != "" {
        DeclaredNext(studio, NamedOnly(ms[..i]), ms[i]);
        var d := DeclareStyle(studio, ms[i], name);
        out := out + [d];
      }
    }
    assert ms[..|ms|] == ms;
  }

  // The definition of a row, by its normal form.
  ghost predicate CodeOf(studio: Studio, m: Entry, code: string) {
    exists e :: Normal(studio, m, None) == Some(e) && DefinitionSays(studio, e, code)
  }

  method ConfigDefinitions(studio: Studio, ms: seq<Entry>) returns (codes: seq<string>, ghost at: seq<nat>)
    ensures |codes| == |NamedOnly(ms)|
    ensures forall i :: 0 <= i < |codes| ==> codes[i] == Definition(studio, NamedOnly(ms)[i])
    ensures NamedAt(ms, at) && |codes| == |at|
    ensures forall k :: 0 <= k < |codes| ==> CodeOf(studio, ms[at[k]], codes[k])
  {
    at := KeptPlaces(HasName(), ms);
    forall k | 0 <= k < |at| ensures CodeOf(studio, ms[at[k]], Definition(studio, NamedOnly(ms)[k])) {
      CleanTrimmed(ms[at[k]].name);
      DefinitionMeans(studio, ms[at[k]]);
    }
    codes := DefineAll(studio, ms);
  }

  method DefineAll(studio: Studio, ms: seq<Entry>) returns (codes: seq<string>)
    ensures |codes| == |NamedOnly(ms)|
    ensures forall i :: 0 <= i < |codes| ==> codes[i] == Definition(studio, NamedOnly(ms)[i])
  {
    codes := [];
    for i := 0 to |ms|
      invariant |codes| == |NamedOnly(ms[..i])|
      invariant forall k :: 0 <= k < |codes| ==> codes[k] == Definition(studio, NamedOnly(ms[..i])[k])
    {
      assert ms[..i + 1][..i] == ms[..i];
      DefinedIffNamed(studio, ms[i]);
      var code := Definition(studio, ms[i]);
      if code != "" {
        codes := codes + [code];
      }
    }
    assert ms[..|ms|] == ms;
  }

  lemma DefinedIffNamed(studio: Studio, m: Entry)
    ensures Definition(studio, m) == "" <==> Clean(m.name) == ""
  {
    CleanTrimmed(m.name);
    if Clean(m.name) != "" {
      var e := Normal(studio, m, None).value;
      RewrittenIsNotEmpty(e.typst, Ident(studio.sp, e.name));
    }
  }

  lemma RewrittenIsNotEmpty(snippet: string, ident: string)
    requires snippet != ""
    ensures Rewritten(snippet, ident) != ""
  {
    if FindHead(snippet).Some? {
      FoundIsAt(snippet);
    }
  }

  /** Style by style, the name handed to the filter is the name the config defines, snippets without a head apart. */
  lemma FilterNamesAreDefined(studio: Studio, m: Entry)
    requires studio.sp.Free() && Clean(m.name) != ""
    ensures Normal(studio, m, None).Some?
    ensures var e := Normal(studio, m, None).value;
      Defines(Definition(studio, m)) == Some(DeclaredOf(studio, m).ident) <==>
      !(SourceOf(studio, e) == Snippet && FindHead(e.typst).None?)
  {
    CleanTrimmed(m.name);
    DefinitionDefines(studio, m);
  }

  // Style i of the config is no snippet without a head.
  predicate Headed(studio: Studio, m: Entry) {
    var n := Normal(studio, m, None);
    n.Some? && !(SourceOf(studio, n.value) == Snippet && FindHead(n.value.typst).None?)
  }

  lemma NamedHaveNames(ms: seq<Entry>)
    ensures forall i :: 0 <= i < |NamedOnly(ms)| ==> Clean(NamedOnly(ms)[i].name) != ""
  {
    KeptPass(HasName(), ms);
    forall i | 0 <= i < |NamedOnly(ms)| ensures HasName()(NamedOnly(ms)[i]) {
      assert NamedOnly(ms)[i] in Kept(HasName(), ms);
    }
  }

  /** Two headed styles of a config define one identifier, and the filter calls both by it, exactly
      when their cleaned names have one core or the core of one is what the other's is turned into. */
  lemma ConfigDefinesTwice(studio: Studio, ms: seq<Entry>, i: nat, j: nat)
    requires studio.sp.Free() && i < |NamedOnly(ms)| && j < |NamedOnly(ms)|
    requires Headed(studio, NamedOnly(ms)[i]) && Headed(studio, NamedOnly(ms)[j])
    ensures var a, b := NamedOnly(ms)[i], NamedOnly(ms)[j];
      var c, d := Core(studio.sp, Clean(a.name)), Core(studio.sp, Clean(b.name));
      && (Defines(Definition(studio, a)) == Defines(Definition(studio, b)) <==>
            c == d || TurnedInto(studio.sp, c, d) || TurnedInto(studio.sp, d, c))
      && (Defines(Definition(studio, a)) == Defines(Definition(studio, b)) <==>
            DeclaredOf(studio, a).ident == DeclaredOf(studio, b).ident)
  {
    NamedHaveNames(ms);
    FilterNamesAreDefined(studio, NamedOnly(ms)[i]);
    FilterNamesAreDefined(studio, NamedOnly(ms)[j]);
    IdentsCollide(studio.sp, Clean(NamedOnly(ms)[i].name), Clean(NamedOnly(ms)[j].name));
  }
}
