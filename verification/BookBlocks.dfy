/** The untitled pieces before the first heading: how they are cut and what they are called. */
module BookBlocks {
  import opened BookSections
  import opened DocxReader
  import opened Numerals
  import opened Options
  import opened Words

  datatype Block = Block(paras: seq<Para>, style: string, drop: bool)
  datatype Untitled = Untitled(name: string, paras: nat, drop: bool)

  function PieceStyle(p: Para): string {
    if p.style == "epigraph" || p.style == "dedication" || p.style == "copyright" then p.style else ""
  }

  predicate Byline(v: Vocabulary, author: string, p: Para) {
    PieceStyle(p) == "" && author != "" &&
    (v.norm(p.text) == v.norm(author) || v.norm(p.text) == "by " + v.norm(author))
  }

  // Neighbours that belong to one piece.
  predicate Joins(v: Vocabulary, author: string, p: Para, q: Para) {
    !Byline(v, author, p) && !Byline(v, author, q) && !q.breakBefore && PieceStyle(p) == PieceStyle(q)
  }

  function Joined(bs: seq<Block>): seq<Para> {
    if |bs| == 0 then [] else Joined(bs[..|bs| - 1]) + bs[|bs| - 1].paras
  }

  predicate OnePiece(v: Vocabulary, author: string, b: Block) {
    && |b.paras| > 0
    && b.style == PieceStyle(b.paras[0])
    && forall k :: 0 < k < |b.paras| ==> Joins(v, author, b.paras[k - 1], b.paras[k])
  }

  predicate Apart(v: Vocabulary, author: string, a: Block, b: Block) {
    |a.paras| > 0 && |b.paras| > 0 && !Joins(v, author, a.paras[|a.paras| - 1], b.paras[0])
  }

  // The pieces of ps: everything in order, each as long as its paragraphs belong together.
  predicate Pieces(v: Vocabulary, author: string, ps: seq<Para>, bs: seq<Block>) {
    && Joined(bs) == ps
    && (forall i :: 0 <= i < |bs| ==> OnePiece(v, author, bs[i]))
    && (forall i :: 0 < i < |bs| ==> Apart(v, author, bs[i - 1], bs[i]))
  }

  predicate Marked(v: Vocabulary, author: string, bs: seq<Block>) {
    forall i :: 0 <= i < |bs| && |bs[i].paras| > 0 ==>
      bs[i].drop == (Byline(v, author, bs[i].paras[0]) || bs[i].style == "copyright")
  }

  lemma UniformPiece(v: Vocabulary, author: string, b: Block, k: nat)
    requires OnePiece(v, author, b) && k < |b.paras|
    ensures PieceStyle(b.paras[k]) == b.style
    ensures Byline(v, author, b.paras[k]) <==> |b.paras| == 1 && Byline(v, author, b.paras[0])
  {
    if |b.paras| > 1 {
      assert Joins(v, author, b.paras[0], b.paras[1]);
      if k > 0 {
        UniformPiece(v, author, b, k - 1);
        assert Joins(v, author, b.paras[k - 1], b.paras[k]);
      }
    }
  }

  lemma LongerPiece(v: Vocabulary, author: string, b: Block, p: Para)
    requires OnePiece(v, author, b) && Joins(v, author, b.paras[|b.paras| - 1], p)
    ensures OnePiece(v, author, b.(paras := b.paras + [p]))
  {
    var c := b.(paras := b.paras + [p]);
    forall k | 0 < k < |c.paras| ensures Joins(v, author, c.paras[k - 1], c.paras[k]) {
      if k < |b.paras| {
        assert c.paras[k - 1] == b.paras[k - 1] && c.paras[k] == b.paras[k];
      }
    }
  }

  lemma LongerJoined(bs: seq<Block>, b: Block, p: Para)
    requires |bs| > 0 && b == bs[|bs| - 1].(paras := bs[|bs| - 1].paras + [p])
    ensures Joined(bs[|bs| - 1 := b]) == Joined(bs) + [p]
  {
    var n := |bs| - 1;
    assert bs[n := b][..n] == bs[..n];
    Grouped(Joined(bs[..n]), bs[n].paras, [p]);
  }

  lemma AddToLast(v: Vocabulary, author: string, ps: seq<Para>, bs: seq<Block>, p: Para)
    requires Pieces(v, author, ps, bs) && |bs| > 0
    requires |bs[|bs| - 1].paras| > 0 && Joins(v, author, bs[|bs| - 1].paras[|bs[|bs| - 1].paras| - 1], p)
    ensures var n := |bs| - 1;
      Pieces(v, author, ps + [p], bs[n := bs[n].(paras := bs[n].paras + [p])])
  {
    var n := |bs| - 1;
    var b := bs[n].(paras := bs[n].paras + [p]);
    var cs := bs[n := b];
    LongerJoined(bs, b, p);
    LongerPiece(v, author, bs[n], p);
    forall i | 0 < i < |cs| ensures Apart(v, author, cs[i - 1], cs[i]) {
      assert Apart(v, author, bs[i - 1], bs[i]);
      assert i == n ==> b.paras[0] == bs[n].paras[0];
    }
  }

  lemma AddNew(v: Vocabulary, author: string, ps: seq<Para>, bs: seq<Block>, b: Block, p: Para)
    requires Pieces(v, author, ps, bs) && b.paras == [p] && b.style == PieceStyle(p)
    requires |bs| > 0 ==> !Joins(v, author, bs[|bs| - 1].paras[|bs[|bs| - 1].paras| - 1], p)
    ensures Pieces(v, author, ps + [p], bs + [b])
  {
    var cs := bs + [b];
    assert cs[..|bs|] == bs;
    if |bs| > 0 {
      assert OnePiece(v, author, bs[|bs| - 1]);
    }
    forall i | 0 < i < |cs| ensures Apart(v, author, cs[i - 1], cs[i]) {
      if i < |bs| {
        assert Apart(v, author, bs[i - 1], bs[i]);
      }
    }
  }

  // The pieces, dropped so far when they are a byline.
  ghost predicate Scanned(v: Vocabulary, author: string, ps: seq<Para>, bs: seq<Block>) {
    Pieces(v, author, ps, bs) &&
    forall k :: 0 <= k < |bs| ==> |bs[k].paras| > 0 && bs[k].drop == Byline(v, author, bs[k].paras[0])
  }

  method AddPara(v: Vocabulary, author: string, ghost ps: seq<Para>, bs0: seq<Block>, p: Para)
    returns (bs: seq<Block>)
    requires Scanned(v, author, ps, bs0)
    ensures Scanned(v, author, ps + [p], bs)
  {
    var style := PieceStyle(p);
    var last := |bs0| - 1;
    if last >= 0 {
      UniformPiece(v, author, bs0[last], 0);
      UniformPiece(v, author, bs0[last], |bs0[last].paras| - 1);
    }
    if style == "" && author != "" &&
       (v.norm(p.text) == v.norm(author) || v.norm(p.text) == "by " + v.norm(author)) {
      AddNew(v, author, ps, bs0, Block([p], "", true), p);
      bs := bs0 + [Block([p], "", true)];
    } else if last < 0 || p.breakBefore || bs0[last].drop || style != bs0[last].style {
      AddNew(v, author, ps, bs0, Block([p], style, false), p);
      bs := bs0 + [Block([p], style, false)];
    } else {
      AddToLast(v, author, ps, bs0, p);
      bs := bs0[last := bs0[last].(paras := bs0[last].paras + [p])];
    }
  }

  /** The loop before the first heading finds the pieces and drops bylines and copyright pages. */
  method CutBlocks(v: Vocabulary, author: string, ps: seq<Para>) returns (bs: seq<Block>)
    ensures Pieces(v, author, ps, bs) && Marked(v, author, bs)
  {
    bs := [];
    for i := 0 to |ps|
      invariant Scanned(v, author, ps[..i], bs)
    {
      assert ps[..i + 1] == ps[..i] + [ps[i]];
      bs := AddPara(v, author, ps[..i], bs, ps[i]);
    }
    assert ps[..|ps|] == ps;
    bs := DropCopyright(v, author, ps, bs);
  }

  method DropCopyright(v: Vocabulary, author: string, ghost ps: seq<Para>, cut: seq<Block>)
    returns (bs: seq<Block>)
    requires Scanned(v, author, ps, cut)
    ensures Pieces(v, author, ps, bs) && Marked(v, author, bs)
  {
    bs := cut;
    for i := 0 to |bs|
      invariant |bs| == |cut|
      invariant forall k :: 0 <= k < |bs| ==>
        bs[k] == if k < i && cut[k].style == "copyright" then cut[k].(drop := true) else cut[k]
    {
      if bs[i].style == "copyright" {
        bs := bs[i := bs[i].(drop := true)];
      }
    }
    SamePieces(v, author, ps, cut, bs);
  }

  lemma {:induction false} SameJoined(a: seq<Block>, b: seq<Block>)
    requires |a| == |b| && forall i :: 0 <= i < |a| ==> a[i].paras == b[i].paras
    ensures Joined(a) == Joined(b)
  {
    if |a| > 0 {
      SameJoined(a[..|a| - 1], b[..|b| - 1]);
    }
  }

  lemma SamePieces(v: Vocabulary, author: string, ps: seq<Para>, a: seq<Block>, b: seq<Block>)
    requires Pieces(v, author, ps, a) && |a| == |b|
    requires forall i :: 0 <= i < |a| ==> b[i] == a[i].(drop := b[i].drop)
    ensures Pieces(v, author, ps, b)
  {
    SameJoined(a, b);
    forall i | 0 <= i < |b| ensures OnePiece(v, author, b[i]) {
      assert OnePiece(v, author, a[i]);
    }
    forall i | 0 < i < |b| ensures Apart(v, author, b[i - 1], b[i]) {
      assert Apart(v, author, a[i - 1], a[i]);
    }
  }

  // Where the last piece begins, counted from the end of ps.
  lemma LastBoundary(v: Vocabulary, author: string, ps: seq<Para>, a: seq<Block>)
    requires Pieces(v, author, ps, a) && |a| > 0
    ensures var n := |a[|a| - 1].paras|;
      && 0 < n <= |ps| && ps[|ps| - n..] == a[|a| - 1].paras
      && Joined(a[..|a| - 1]) == ps[..|ps| - n]
      && (n < |ps| ==> !Joins(v, author, ps[|ps| - n - 1], ps[|ps| - n]))
  {
    var m := |a| - 1;
    var n := |a[m].paras|;
    assert OnePiece(v, author, a[m]);
    assert ps == Joined(a[..m]) + a[m].paras;
    if m > 0 {
      assert a[..m][m - 1] == a[m - 1];
      assert OnePiece(v, author, a[m - 1]) && Apart(v, author, a[m - 1], a[m]);
    }
  }

  lemma LastInside(v: Vocabulary, author: string, ps: seq<Para>, a: seq<Block>)
    requires Pieces(v, author, ps, a) && |a| > 0
    ensures var n := |a[|a| - 1].paras|;
      0 < n <= |ps| && forall k :: |ps| - n < k < |ps| ==> Joins(v, author, ps[k - 1], ps[k])
  {
    LastBoundary(v, author, ps, a);
    var m := |a| - 1;
    var n := |a[m].paras|;
    forall k | |ps| - n < k < |ps| ensures Joins(v, author, ps[k - 1], ps[k]) {
      var j := k - (|ps| - n);
      assert ps[k - 1] == a[m].paras[j - 1] && ps[k] == a[m].paras[j];
      assert OnePiece(v, author, a[m]);
    }
  }

  lemma LastLength(v: Vocabulary, author: string, ps: seq<Para>, a: seq<Block>, b: seq<Block>)
    requires Pieces(v, author, ps, a) && Pieces(v, author, ps, b) && |a| > 0 && |b| > 0
    ensures |a[|a| - 1].paras| >= |b[|b| - 1].paras|
  {
    LastBoundary(v, author, ps, a);
    LastInside(v, author, ps, b);
  }

  lemma PiecesInit(v: Vocabulary, author: string, ps: seq<Para>, a: seq<Block>)
    requires Pieces(v, author, ps, a) && Marked(v, author, a) && |a| > 0
    ensures Pieces(v, author, Joined(a[..|a| - 1]), a[..|a| - 1]) && Marked(v, author, a[..|a| - 1])
  {
  }

  lemma EmptyCut(v: Vocabulary, author: string, ps: seq<Para>, a: seq<Block>)
    requires Pieces(v, author, ps, a)
    ensures |a| == 0 <==> |ps| == 0
  {
    if |a| > 0 {
      assert OnePiece(v, author, a[|a| - 1]);
    }
  }

  lemma SameLast(v: Vocabulary, author: string, ps: seq<Para>, a: seq<Block>, b: seq<Block>)
    requires Pieces(v, author, ps, a) && Marked(v, author, a) && |a| > 0
    requires Pieces(v, author, ps, b) && Marked(v, author, b) && |b| > 0
    ensures a[|a| - 1] == b[|b| - 1] && Joined(a[..|a| - 1]) == Joined(b[..|b| - 1])
  {
    LastLength(v, author, ps, a, b);
    LastLength(v, author, ps, b, a);
    LastBoundary(v, author, ps, a);
    LastBoundary(v, author, ps, b);
    assert OnePiece(v, author, a[|a| - 1]) && OnePiece(v, author, b[|b| - 1]);
  }

  /** There is only one way to cut: the pieces are determined by the paragraphs. */
  lemma {:induction false} OnlyOneCut(v: Vocabulary, author: string, ps: seq<Para>, a: seq<Block>, b: seq<Block>)
    requires Pieces(v, author, ps, a) && Marked(v, author, a)
    requires Pieces(v, author, ps, b) && Marked(v, author, b)
    ensures a == b
    decreases |a|
  {
    EmptyCut(v, author, ps, a);
    EmptyCut(v, author, ps, b);
    if |a| > 0 {
      var n, m := |a| - 1, |b| - 1;
      SameLast(v, author, ps, a, b);
      PiecesInit(v, author, ps, a);
      PiecesInit(v, author, ps, b);
      OnlyOneCut(v, author, Joined(a[..n]), a[..n], b[..m]);
      SameSeq(a, b);
    }
  }

  lemma SameSeq(a: seq<Block>, b: seq<Block>)
    requires |a| > 0 && |b| > 0 && a[..|a| - 1] == b[..|b| - 1] && a[|a| - 1] == b[|b| - 1]
    ensures a == b
  {
    assert a == a[..|a| - 1] + [a[|a| - 1]];
    assert b == b[..|b| - 1] + [b[|b| - 1]];
  }

  // ---- What a cut says ----

  // The styles that make a piece of their own.
  predicate OfItsOwn(style: string) {
    style == "epigraph" || style == "dedication" || style == "copyright"
  }

  // An unstyled line that is the author's name, or "by" and the name.
  predicate AuthorLine(v: Vocabulary, author: string, p: Para) {
    !OfItsOwn(p.style) && author != ""
    && (v.norm(p.text) == v.norm(author) || v.norm(p.text) == "by " + v.norm(author))
  }

  predicate SameSort(p: Para, q: Para) {
    if OfItsOwn(p.style) then p.style == q.style else !OfItsOwn(q.style)
  }

  // One piece: paragraphs of one sort without a page break inside; the author's line stands alone.
  predicate IsPiece(v: Vocabulary, author: string, b: Block) {
    && |b.paras| > 0
    && b.style == (if OfItsOwn(b.paras[0].style) then b.paras[0].style else "")
    && (forall k :: 0 < k < |b.paras| ==> SameSort(b.paras[0], b.paras[k]) && !b.paras[k].breakBefore)
    && (forall k :: 0 <= k < |b.paras| && AuthorLine(v, author, b.paras[k]) ==> |b.paras| == 1)
    && (b.drop <==> b.paras[0].style == "copyright" || AuthorLine(v, author, b.paras[0]))
  }

  /** Pieces are cut at page breaks, where a style of its own begins or ends, and around the author's
      line; exactly that line and copyright pages are dropped. */
  lemma CutSays(v: Vocabulary, author: string, ps: seq<Para>, bs: seq<Block>)
    requires Pieces(v, author, ps, bs) && Marked(v, author, bs)
    ensures forall i :: 0 <= i < |bs| ==> IsPiece(v, author, bs[i])
    ensures forall i :: 0 < i < |bs| ==>
      var p, q := bs[i - 1].paras[|bs[i - 1].paras| - 1], bs[i].paras[0];
      q.breakBefore || !SameSort(p, q) || AuthorLine(v, author, p) || AuthorLine(v, author, q)
  {
    forall i | 0 <= i < |bs| ensures IsPiece(v, author, bs[i]) {
      PieceSays(v, author, bs[i]);
    }
    forall i | 0 < i < |bs|
      ensures var p, q := bs[i - 1].paras[|bs[i - 1].paras| - 1], bs[i].paras[0];
        q.breakBefore || !SameSort(p, q) || AuthorLine(v, author, p) || AuthorLine(v, author, q)
    {
      assert Apart(v, author, bs[i - 1], bs[i]);
    }
  }

  lemma PieceSays(v: Vocabulary, author: string, b: Block)
    requires OnePiece(v, author, b)
    requires b.drop == (Byline(v, author, b.paras[0]) || b.style == "copyright")
    ensures IsPiece(v, author, b)
  {
    forall k | 0 <= k < |b.paras|
      ensures PieceStyle(b.paras[k]) == b.style && (AuthorLine(v, author, b.paras[k]) ==> |b.paras| == 1)
    {
      UniformPiece(v, author, b, k);
    }
    forall k | 0 < k < |b.paras| ensures SameSort(b.paras[0], b.paras[k]) && !b.paras[k].breakBefore {
      assert Joins(v, author, b.paras[k - 1], b.paras[k]);
    }
  }

  // ---- Names ----

  function CanonicalNames(): seq<string> {
    ["dedication", "epigraph"]
  }

  // The styles of the pieces that keep their own name.
  function StyledNames(bs: seq<Block>): set<string> {
    set i | 0 <= i < |bs| && !bs[i].drop && bs[i].style != "" :: bs[i].style
  }

  // First occurrences of names that are not taken.
  function Unused(names: seq<string>, taken: set<string>): (r: seq<string>)
    ensures forall i :: 0 <= i < |r| ==> r[i] in names && r[i] !in taken
    ensures forall i, j :: 0 <= i < j < |r| ==> r[i] != r[j]
    ensures forall i :: 0 <= i < |names| && names[i] !in taken ==> names[i] in r
  {
    if |names| == 0 then [] else
      var r := Unused(names[..|names| - 1], taken);
      var x := names[|names| - 1];
      if x in taken || x in r then r else r + [x]
  }

  // Names for the unstyled pieces: what the transmittal declares, then the usual order.
  function FreeNames(declared: seq<string>, bs: seq<Block>): seq<string> {
    Unused(declared + CanonicalNames(), StyledNames(bs))
  }

  predicate Plain(b: Block) {
    !b.drop && b.style == ""
  }

  function PlainCount(bs: seq<Block>): nat {
    if |bs| == 0 then 0 else PlainCount(bs[..|bs| - 1]) + if Plain(bs[|bs| - 1]) then 1 else 0
  }

  function PageName(k: nat): string {
    "untitled front-matter page " + Print(k, 10)
  }

  // What name number k is, among the free names and then the numbered pages.
  function NumberedName(names: seq<string>, k: nat): string {
    if k < |names| then names[k] else PageName(k + 1)
  }

  function NameOf(bs: seq<Block>, declared: seq<string>, i: nat): string
    requires i < |bs|
  {
    if bs[i].drop then "dropped"
    else if bs[i].style != "" then bs[i].style
    else NumberedName(FreeNames(declared, bs), PlainCount(bs[..i]))
  }

  function Named(bs: seq<Block>, declared: seq<string>): (us: seq<Untitled>)
    ensures |us| == |bs|
  {
    seq(|bs|, i requires 0 <= i < |bs| => Untitled(NameOf(bs, declared, i), |bs[i].paras|, bs[i].drop))
  }

  method CollectStyled(bs: seq<Block>) returns (used: set<string>)
    ensures used == StyledNames(bs)
  {
    used := {};
    for i := 0 to |bs|
      invariant used == StyledNames(bs[..i])
    {
      StyledNext(bs, i);
      if !bs[i].drop && bs[i].style != "" {
        used := used + {bs[i].style};
      }
    }
    assert bs[..|bs|] == bs;
  }

  method CollectNames(all: seq<string>, styled: set<string>) returns (names: seq<string>)
    ensures names == Unused(all, styled)
  {
    var used := styled;
    names := [];
    for i := 0 to |all|
      invariant names == Unused(all[..i], styled)
      invariant forall n :: n in used <==> n in styled || n in names
    {
      assert all[..i + 1][..i] == all[..i];
      if all[i] !in used {
        used := used + {all[i]};
        names := names + [all[i]];
      }
    }
    assert all[..|all|] == all;
  }

  // One piece's name, and the counts after it.
  method NameBlock(b: Block, names: seq<string>, plainCount0: nat, nextName0: nat)
    returns (name: string, plainCount: nat, nextName: nat)
    requires nextName0 == if plainCount0 < |names| then plainCount0 else |names|
    ensures name == if b.drop then "dropped" else if b.style != "" then b.style else NumberedName(names, plainCount0)
    ensures plainCount == plainCount0 + if Plain(b) then 1 else 0
    ensures nextName == if plainCount < |names| then plainCount else |names|
  {
    plainCount, nextName := plainCount0, nextName0;
    if b.drop {
      return "dropped", plainCount, nextName;
    }
    if b.style != "" {
      return b.style, plainCount, nextName;
    }
    plainCount := plainCount + 1;
    if nextName < |names| {
      return names[nextName], plainCount, nextName + 1;
    }
    return PageName(plainCount), plainCount, nextName;
  }

  /** The naming loops give every piece its name. */
  method NameBlocks(bs: seq<Block>, declared: seq<string>) returns (us: seq<Untitled>)
    ensures us == Named(bs, declared)
    ensures |us| == |bs| && forall i :: 0 <= i < |us| ==>
      us[i].paras == |bs[i].paras| && us[i].drop == bs[i].drop
      && us[i].name ==
           if bs[i].drop then "dropped"
           else if bs[i].style != "" then bs[i].style
           else
             var k := PlainCount(bs[..i]);
             if k < |FreeNames(declared, bs)| then FreeNames(declared, bs)[k]
             else "untitled front-matter page " + Print(k + 1, 10)
  {
    var used := CollectStyled(bs);
    var names := CollectNames(declared + CanonicalNames(), used);
    assert names == FreeNames(declared, bs);
    var plainCount, nextName := 0, 0;
    us := [];
    for i := 0 to |bs|
      invariant plainCount == PlainCount(bs[..i])
      invariant nextName == if plainCount < |names| then plainCount else |names|
      invariant us == Named(bs, declared)[..i]
    {
      var name;
      PlainNext(bs, i);
      NamedNext(bs, declared, i);
      name, plainCount, nextName := NameBlock(bs[i], names, plainCount, nextName);
      us := us + [Untitled(name, |bs[i].paras|, bs[i].drop)];
    }
  }

  // The first x stands before any y.
  ghost predicate Precedes(all: seq<string>, x: string, y: string) {
    exists a :: 0 <= a < |all| && all[a] == x && forall b :: 0 <= b <= a ==> all[b] != y
  }

  // Some of the names, each where it first stands.
  ghost predicate InOrder(all: seq<string>, names: seq<string>) {
    forall i, j :: 0 <= i < j < |names| ==> Precedes(all, names[i], names[j])
  }

  lemma {:induction false} UnusedInOrder(all: seq<string>, taken: set<string>)
    ensures InOrder(all, Unused(all, taken))
  {
    if |all| > 0 {
      var front, x := all[..|all| - 1], all[|all| - 1];
      var r := Unused(all, taken);
      UnusedInOrder(front, taken);
      forall i, j | 0 <= i < j < |r| ensures Precedes(all, r[i], r[j]) {
        assert all == front + [x];
        PrecedesInLonger(front, x, taken, i, j);
      }
    }
  }

  lemma PrecedesInLonger(front: seq<string>, x: string, taken: set<string>, i: nat, j: nat)
    requires InOrder(front, Unused(front, taken))
    requires i < j < |Unused(front + [x], taken)|
    ensures var r := Unused(front + [x], taken); Precedes(front + [x], r[i], r[j])
  {
    var all := front + [x];
    assert all[..|front|] == front;
    var q, r := Unused(front, taken), Unused(all, taken);
    if j < |q| {
      assert r[i] == q[i] && r[j] == q[j] && Precedes(front, q[i], q[j]);
      var a :| 0 <= a < |front| && front[a] == q[i] && forall b :: 0 <= b <= a ==> front[b] != q[j];
      assert all[a] == r[i] && forall b :: 0 <= b <= a ==> all[b] == front[b];
    } else {
      assert r == q + [x] && r[j] == x && r[i] == q[i] && q[i] in front;
      var a :| 0 <= a < |front| && front[a] == q[i];
      forall b | 0 <= b <= a ensures all[b] != x {
        assert all[b] == front[b] && x !in q && x !in taken;
      }
      assert all[a] == r[i];
    }
  }

  /** The names for unstyled pieces: what is declared, then dedication and epigraph, each once, none
      that a kept piece has by its style. */
  lemma FreeNamesAre(declared: seq<string>, bs: seq<Block>)
    ensures var names, all := FreeNames(declared, bs), declared + ["dedication", "epigraph"];
      && InOrder(all, names) && (forall i, j :: 0 <= i < j < |names| ==> names[i] != names[j])
      && (forall name :: name in names <==>
            name in all && forall i :: 0 <= i < |bs| && !bs[i].drop && name != "" ==> bs[i].style != name)
  {
    var all := declared + ["dedication", "epigraph"];
    assert all == declared + CanonicalNames();
    UnusedInOrder(all, StyledNames(bs));
    forall name
      ensures name in StyledNames(bs) <==> exists i :: 0 <= i < |bs| && !bs[i].drop && name != "" && bs[i].style == name
    {
    }
  }

  lemma NamedNext(bs: seq<Block>, declared: seq<string>, i: nat)
    requires i < |bs|
    ensures Named(bs, declared)[..i + 1] ==
            Named(bs, declared)[..i] + [Untitled(NameOf(bs, declared, i), |bs[i].paras|, bs[i].drop)]
  {
  }

  lemma PlainNext(bs: seq<Block>, i: nat)
    requires i < |bs|
    ensures PlainCount(bs[..i + 1]) == PlainCount(bs[..i]) + if Plain(bs[i]) then 1 else 0
  {
    assert bs[..i + 1][..i] == bs[..i];
  }

  lemma StyledNext(bs: seq<Block>, i: nat)
    requires i < |bs|
    ensures StyledNames(bs[..i + 1]) ==
            StyledNames(bs[..i]) + if !bs[i].drop && bs[i].style != "" then {bs[i].style} else {}
  {
    assert forall k :: 0 <= k < i ==> bs[..i + 1][k] == bs[..i][k];
    forall s | s in StyledNames(bs[..i]) ensures s in StyledNames(bs[..i + 1]) {
      var k :| 0 <= k < i && !bs[..i][k].drop && bs[..i][k].style != "" && bs[..i][k].style == s;
      assert bs[..i + 1][k].style == s;
    }
    assert bs[..i + 1][i] == bs[i];
  }

  // The transmittal can declare only the usual pieces.
  predicate Declarable(declared: seq<string>) {
    forall i :: 0 <= i < |declared| ==> declared[i] in CanonicalNames()
  }

  lemma {:induction false} PlainGrows(bs: seq<Block>, i: nat, j: nat)
    requires i < j <= |bs| && Plain(bs[i])
    ensures PlainCount(bs[..i]) < PlainCount(bs[..j])
    decreases j
  {
    assert bs[..j][..j - 1] == bs[..j - 1];
    if i < j - 1 {
      PlainGrows(bs, i, j - 1);
    }
  }

  lemma PagesDiffer(j: nat, k: nat)
    requires j != k
    ensures PageName(j) != PageName(k)
  {
    var head := "untitled front-matter page ";
    assert PageName(j)[|head|..] == Print(j, 10) && PageName(k)[|head|..] == Print(k, 10);
  }

  lemma PageIsNoPiece(k: nat, name: string)
    requires name in CanonicalNames()
    ensures PageName(k) != name
  {
    assert PageName(k)[0] == 'u';
  }

  lemma NumberedNamesDiffer(names: seq<string>, k: nat, l: nat)
    requires k != l && forall i, j :: 0 <= i < j < |names| ==> names[i] != names[j]
    requires forall i :: 0 <= i < |names| ==> names[i] in CanonicalNames()
    ensures NumberedName(names, k) != NumberedName(names, l)
  {
    if k >= |names| && l >= |names| {
      PagesDiffer(k + 1, l + 1);
    } else if k >= |names| {
      PageIsNoPiece(k + 1, names[l]);
    } else if l >= |names| {
      PageIsNoPiece(l + 1, names[k]);
    }
  }

  lemma FreeNamesAreUsual(declared: seq<string>, bs: seq<Block>)
    requires Declarable(declared)
    ensures forall i :: 0 <= i < |FreeNames(declared, bs)| ==>
      FreeNames(declared, bs)[i] in CanonicalNames() && FreeNames(declared, bs)[i] !in StyledNames(bs)
  {
    var names, all := FreeNames(declared, bs), declared + CanonicalNames();
    forall i | 0 <= i < |names| ensures names[i] in CanonicalNames() {
      assert names[i] in all;
    }
  }

  lemma StyledDiffer(bs: seq<Block>, declared: seq<string>, k: nat, j: nat)
    requires Declarable(declared) && j < |bs| && !bs[j].drop && bs[j].style in CanonicalNames()
    ensures NumberedName(FreeNames(declared, bs), k) != bs[j].style
  {
    FreeNamesAreUsual(declared, bs);
    assert bs[j].style != "" by {
      assert CanonicalNames()[0] == "dedication" && CanonicalNames()[1] == "epigraph";
    }
    assert bs[j].style in StyledNames(bs);
    PageIsNoPiece(k + 1, bs[j].style);
  }

  lemma PlainCountsDiffer(bs: seq<Block>, i: nat, j: nat)
    requires i < |bs| && j < |bs| && i != j && Plain(bs[i]) && Plain(bs[j])
    ensures PlainCount(bs[..i]) != PlainCount(bs[..j])
  {
    if i < j {
      PlainGrows(bs, i, j);
    } else {
      PlainGrows(bs, j, i);
    }
  }

  /** No unstyled piece shares its name with another piece that is kept. */
  lemma NamesAreDistinct(bs: seq<Block>, declared: seq<string>, i: nat, j: nat)
    requires Declarable(declared)
    requires forall k :: 0 <= k < |bs| && !bs[k].drop ==> bs[k].style == "" || bs[k].style in CanonicalNames()
    requires i < |bs| && j < |bs| && i != j && Plain(bs[i]) && !bs[j].drop
    ensures NameOf(bs, declared, i) != NameOf(bs, declared, j)
  {
    var names := FreeNames(declared, bs);
    assert NameOf(bs, declared, i) == NumberedName(names, PlainCount(bs[..i]));
    if bs[j].style != "" {
      StyledDiffer(bs, declared, PlainCount(bs[..i]), j);
    } else {
      assert NameOf(bs, declared, j) == NumberedName(names, PlainCount(bs[..j]));
      PlainCountsDiffer(bs, i, j);
      FreeNamesAreUsual(declared, bs);
      NumberedNamesDiffer(names, PlainCount(bs[..i]), PlainCount(bs[..j]));
    }
  }
}
