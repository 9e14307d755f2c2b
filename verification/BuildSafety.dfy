/** What every run of the build protocol keeps, whatever statements fail and whenever the
    process dies: one build per project, the PDF before the ready status, finals never pruned,
    the credit cap, and the ledger. */
module BuildSafety {
  import opened Options
  import opened BuildProtocol

  /** The request owns the build of its book: it has claimed it and not yet written the status
      that ends the build. */
  predicate Holding(r: Req) {
    r.pc in {Debit, DebitRow, Unclaim, Typeset, PruneProofs, EpubStage, MarkReady, MarkFailed}
  }

  ghost predicate Requests(s: State) {
    forall i :: 0 <= i < |s.reqs| ==>
      && s.reqs[i].book in s.books
      && s.reqs[i].project == s.books[s.reqs[i].book].project
      && (s.reqs[i].hasPass ==> s.reqs[i].project.Some? && s.reqs[i].project.value in s.passes)
  }

  ghost predicate OneConvertingPerProject(books: map<int, Book>) {
    forall b, c | b in books && c in books && b != c && books[b].project.Some? ::
      books[b].project == books[c].project && books[b].status == Converting ==> books[c].status != Converting
  }

  ghost predicate HoldersMarked(s: State) {
    forall i :: 0 <= i < |s.reqs| && Holding(s.reqs[i]) ==>
      s.reqs[i].book in s.books && s.books[s.reqs[i].book].status == Converting
  }

  ghost predicate HoldersApart(s: State) {
    forall i, j :: 0 <= i < j < |s.reqs| && Holding(s.reqs[i]) && Holding(s.reqs[j]) ==>
      s.reqs[i].book != s.reqs[j].book
  }

  ghost predicate Exclusive(s: State) {
    Requests(s) && OneConvertingPerProject(s.books) && HoldersMarked(s) && HoldersApart(s)
  }

  /** A step of request i touches its own record, and of the books at most its own row; it ends
      or begins ownership of that row only with the matching change of status. */
  ghost predicate Local(s: State, t: State, i: nat)
    requires i < |s.reqs| && s.reqs[i].book in s.books
  {
    var b := s.reqs[i].book;
    && |t.reqs| == |s.reqs|
    && t.reqs == s.reqs[i := t.reqs[i]]
    && t.reqs[i].book == b && t.reqs[i].project == s.reqs[i].project
    && (t.reqs[i].hasPass ==> (s.reqs[i].project.Some? && s.reqs[i].project.value in s.passes))
    && s.passes.Keys <= t.passes.Keys
    && b in t.books && t.books == s.books[b := t.books[b]] && t.books[b].project == s.books[b].project
    && (|| (t.books[b].status == s.books[b].status && (Holding(t.reqs[i]) ==> Holding(s.reqs[i])))
        || (!Holding(s.reqs[i]) && Claimable(s.books, b) && t.books[b].status == Converting)
        || (Holding(s.reqs[i]) && !Holding(t.reqs[i])))
  }

  lemma LocalKeepsExclusive(s: State, t: State, i: nat)
    requires Exclusive(s) && i < |s.reqs| && Local(s, t, i)
    ensures Exclusive(t)
  {
    var b := s.reqs[i].book;
    forall j | 0 <= j < |t.reqs| && Holding(t.reqs[j])
      ensures t.books[t.reqs[j].book].status == Converting && (j != i ==> Holding(s.reqs[j]))
    {
      assert j != i ==> t.reqs[j] == s.reqs[j];
    }
  }

  lemma HandlerIsLocal(s: State, i: nat, ok: bool)
    requires Exclusive(s) && i < |s.reqs| && s.reqs[i].pc in {RecordKind, Claim, DebitRow, Unclaim}
    ensures Local(s, StepStatement(s, i, ok), i)
  {
    var t := StepStatement(s, i, ok);
    assert t.reqs == s.reqs[i := t.reqs[i]];
    assert t.books == s.books[s.reqs[i].book := t.books[s.reqs[i].book]];
  }

  lemma BuildIsLocal(s: State, i: nat, ok: bool)
    requires Exclusive(s) && i < |s.reqs| && s.reqs[i].pc in {Typeset, PruneProofs, MarkReady}
    ensures Local(s, StepStatement(s, i, ok), i)
  {
    var t := StepStatement(s, i, ok);
    assert t.reqs == s.reqs[i := t.reqs[i]];
    assert t.books == s.books[s.reqs[i].book := t.books[s.reqs[i].book]];
  }

  lemma FailureIsLocal(s: State, i: nat, ok: bool)
    requires Exclusive(s) && i < |s.reqs| && s.reqs[i].pc in {MarkFailed, Reread, LookupPass, Refund, RefundRow}
    ensures Local(s, StepStatement(s, i, ok), i)
  {
    var t := StepStatement(s, i, ok);
    assert t.reqs == s.reqs[i := t.reqs[i]];
    assert t.books == s.books[s.reqs[i].book := t.books[s.reqs[i].book]];
  }

  lemma StatementIsLocal(s: State, i: nat, ok: bool)
    requires Exclusive(s) && i < |s.reqs|
    ensures Local(s, StepStatement(s, i, ok), i)
  {
    match s.reqs[i].pc {
      case RecordKind | Claim | DebitRow | Unclaim => HandlerIsLocal(s, i, ok);
      case Typeset | PruneProofs | MarkReady => BuildIsLocal(s, i, ok);
      case MarkFailed | Reread | LookupPass | Refund | RefundRow => FailureIsLocal(s, i, ok);
      case _ =>
        assert s.reqs == s.reqs[i := s.reqs[i]];
    }
  }

  lemma AccessIsLocal(s: State, i: nat, g: bool, refuse: bool, ok: bool)
    requires Exclusive(s) && At(s, i, Access)
    ensures Local(s, StepAccess(s, i, g, refuse, ok), i)
  {
    var t := StepAccess(s, i, g, refuse, ok);
    assert t.reqs == s.reqs[i := t.reqs[i]];
    assert t.books == s.books[s.reqs[i].book := t.books[s.reqs[i].book]];
  }

  lemma CountIsLocal(s: State, i: nat, refuse: bool, ok: bool)
    requires Exclusive(s) && At(s, i, CountBuilds)
    ensures Local(s, StepCountBuilds(s, i, refuse, ok), i)
  {
    var t := StepCountBuilds(s, i, refuse, ok);
    assert t.reqs == s.reqs[i := t.reqs[i]];
    assert t.books == s.books[s.reqs[i].book := t.books[s.reqs[i].book]];
  }

  lemma DebitIsLocal(s: State, i: nat, g: bool, ok: bool)
    requires Exclusive(s) && At(s, i, Debit)
    ensures Local(s, StepDebit(s, i, g, ok), i)
  {
    var t := StepDebit(s, i, g, ok);
    assert t.reqs == s.reqs[i := t.reqs[i]];
    assert t.books == s.books[s.reqs[i].book := t.books[s.reqs[i].book]];
  }

  lemma EpubIsLocal(s: State, i: nat, stored: bool, ok: bool)
    requires Exclusive(s) && (stored || !ok)
    requires At(s, i, EpubStage) || (At(s, i, Typeset) && s.reqs[i].format == Epub)
    ensures Local(s, StepEpub(s, i, stored, ok), i)
  {
    var t := StepEpub(s, i, stored, ok);
    assert t.reqs == s.reqs[i := t.reqs[i]];
    assert t.books == s.books[s.reqs[i].book := t.books[s.reqs[i].book]];
  }

  lemma SameIsLocal(s: State, i: nat)
    requires Exclusive(s) && i < |s.reqs|
    ensures Local(s, s, i)
  {
    assert s.reqs == s.reqs[i := s.reqs[i]];
    assert s.books == s.books[s.reqs[i].book := s.books[s.reqs[i].book]];
  }

  lemma StepIsLocal(s: State, e: Event)
    requires Exclusive(s)
    ensures match e
            case EAccess(i, _, _, _) => At(s, i, Access) ==> Local(s, Step(s, e), i)
            case ECountBuilds(i, _, _) => At(s, i, CountBuilds) ==> Local(s, Step(s, e), i)
            case EStatement(i, _) => i < |s.reqs| ==> Local(s, Step(s, e), i)
            case EDebit(i, _, _) => At(s, i, Debit) ==> Local(s, Step(s, e), i)
            case EEpub(i, _, _) => i < |s.reqs| ==> Local(s, Step(s, e), i)
            case _ => true
  {
    match e {
      case EAccess(i, g, refuse, ok) => if At(s, i, Access) { AccessIsLocal(s, i, g, refuse, ok); }
      case ECountBuilds(i, refuse, ok) => if At(s, i, CountBuilds) { CountIsLocal(s, i, refuse, ok); }
      case EStatement(i, ok) => if i < |s.reqs| { StatementIsLocal(s, i, ok); }
      case EDebit(i, g, ok) => if At(s, i, Debit) { DebitIsLocal(s, i, g, ok); }
      case EEpub(i, stored, ok) =>
        if i < |s.reqs| {
          if (stored || !ok) && (At(s, i, EpubStage) || (At(s, i, Typeset) && s.reqs[i].format == Epub)) {
            EpubIsLocal(s, i, stored, ok);
          } else {
            SameIsLocal(s, i);
          }
        }
      case _ =>
    }
  }

  lemma StepKeepsExclusive(s: State, e: Event)
    requires Exclusive(s)
    ensures Exclusive(Step(s, e))
  {
    StepIsLocal(s, e);
    match e {
      case EAccess(i, _, _, _) => if At(s, i, Access) { LocalKeepsExclusive(s, Step(s, e), i); }
      case ECountBuilds(i, _, _) => if At(s, i, CountBuilds) { LocalKeepsExclusive(s, Step(s, e), i); }
      case EStatement(i, _) => if i < |s.reqs| { LocalKeepsExclusive(s, Step(s, e), i); }
      case EDebit(i, _, _) => if At(s, i, Debit) { LocalKeepsExclusive(s, Step(s, e), i); }
      case EEpub(i, _, _) => if i < |s.reqs| { LocalKeepsExclusive(s, Step(s, e), i); }
      case _ =>
    }
  }

  /** Every run, from any database in which no two books of a project are converting. */
  lemma {:induction false} RunKeepsExclusive(s: State, events: seq<Event>)
    requires Start(s)
    ensures Exclusive(Run(s, events))
  {
    if events != [] {
      RunKeepsExclusive(s, events[..|events| - 1]);
      StepKeepsExclusive(Run(s, events[..|events| - 1]), events[|events| - 1]);
    }
  }

  /** Two builds that are running at the same moment belong to different books and, when the
      books have projects, to different projects. The earlier count of converting books is not
      needed for this: the claim alone guarantees it. */
  lemma OneBuildPerProject(s: State, events: seq<Event>, i: nat, j: nat)
    requires Start(s)
    requires var t := Run(s, events); i < j < |t.reqs| && Holding(t.reqs[i]) && Holding(t.reqs[j])
    ensures var t := Run(s, events);
      t.reqs[i].book != t.reqs[j].book
      && (t.reqs[i].project.Some? ==> t.reqs[i].project != t.reqs[j].project)
  {
    RunKeepsExclusive(s, events);
  }

  // ----- outputs -----------------------------------------------------------------------------

  /** The PDF a download of the book serves: the last one stored. */
  function NewestPdf(outs: seq<Output>, book: int): Option<Output> {
    if outs == [] then None
    else
      var last := outs[|outs| - 1];
      if last.book == book && last.format == Pdf then Some(last) else NewestPdf(outs[..|outs| - 1], book)
  }

  lemma {:induction false} PruneKeepsNewest(
      outs: seq<Output>, b: int, f: Format, kinds: set<Kind>, keep: nat, book: int)
    requires keep >= 1 || b != book || f != Pdf
    ensures NewestPdf(Prune(outs, b, f, kinds, keep), book) == NewestPdf(outs, book)
  {
    if outs != [] {
      var last, front := outs[|outs| - 1], outs[..|outs| - 1];
      if last.book == book && last.format == Pdf {
        if Prunable(last, b, f, kinds) {
          var rest := Prune(front, b, f, kinds, keep - 1);
          assert (rest + [last])[..|rest|] == rest;
        } else {
          var rest := Prune(front, b, f, kinds, keep);
          assert (rest + [last])[..|rest|] == rest;
        }
      } else if !Prunable(last, b, f, kinds) {
        PruneKeepsNewest(front, b, f, kinds, keep, book);
        var rest := Prune(front, b, f, kinds, keep);
        assert (rest + [last])[..|rest|] == rest;
      } else {
        var k: nat := if keep == 0 then 0 else keep - 1;
        PruneKeepsNewest(front, b, f, kinds, k, book);
        var rest := Prune(front, b, f, kinds, k);
        assert (rest + [last])[..|rest|] == rest;
      }
    }
  }

  lemma {:induction false} PruneKeepsOthers(
      outs: seq<Output>, b: int, f: Format, kinds: set<Kind>, keep: nat, o: Output)
    requires o in outs && !Prunable(o, b, f, kinds)
    ensures o in Prune(outs, b, f, kinds, keep)
  {
    var last, front := outs[|outs| - 1], outs[..|outs| - 1];
    assert outs == front + [last];
    if o != last || Prunable(last, b, f, kinds) {
      PruneKeepsOthers(front, b, f, kinds, keep, o);
      if keep > 0 {
        PruneKeepsOthers(front, b, f, kinds, keep - 1, o);
      }
    }
  }

  /** Rows from i on that the query may delete. */
  function Later(outs: seq<Output>, i: nat, b: int, f: Format, kinds: set<Kind>): nat {
    if |outs| <= i then 0
    else Later(outs[..|outs| - 1], i, b, f, kinds) + if Prunable(outs[|outs| - 1], b, f, kinds) then 1 else 0
  }

  predicate Stays(outs: seq<Output>, i: nat, b: int, f: Format, kinds: set<Kind>, keep: nat)
    requires i < |outs|
  {
    !Prunable(outs[i], b, f, kinds) || Later(outs, i + 1, b, f, kinds) < keep
  }

  function Staying(outs: seq<Output>, n: nat, b: int, f: Format, kinds: set<Kind>, keep: nat): seq<Output>
    requires n <= |outs|
  {
    if n == 0 then []
    else Staying(outs, n - 1, b, f, kinds, keep) + if Stays(outs, n - 1, b, f, kinds, keep) then [outs[n - 1]] else []
  }

  lemma {:induction false} StayingFront(
      front: seq<Output>, last: Output, n: nat, b: int, f: Format, kinds: set<Kind>, keep: nat)
    requires n <= |front|
    ensures Staying(front + [last], n, b, f, kinds, keep) ==
            Staying(front, n, b, f, kinds, if !Prunable(last, b, f, kinds) || keep == 0 then keep else keep - 1)
  {
    if n > 0 {
      StayingFront(front, last, n - 1, b, f, kinds, keep);
      assert (front + [last])[..|front|] == front;
    }
  }

  /** Of the rows of its book, format and kinds pruning keeps exactly those with fewer than `keep`
      newer ones, of all other rows every one, and all in their order. */
  lemma {:induction false} PruneKeepsNewestRows(outs: seq<Output>, b: int, f: Format, kinds: set<Kind>, keep: nat)
    ensures Prune(outs, b, f, kinds, keep) == Staying(outs, |outs|, b, f, kinds, keep)
  {
    if outs != [] {
      var last, front := outs[|outs| - 1], outs[..|outs| - 1];
      var rest := if !Prunable(last, b, f, kinds) || keep == 0 then keep else keep - 1;
      PruneKeepsNewestRows(front, b, f, kinds, rest);
      StayingFront(front, last, |front|, b, f, kinds, keep);
      assert outs == front + [last];
    }
  }

  predicate PdfIsStored(r: Req) {
    r.format != Epub && r.pc in {PruneProofs, EpubStage, MarkReady}
  }

  ghost predicate PdfNewest(s: State) {
    forall i :: 0 <= i < |s.reqs| && PdfIsStored(s.reqs[i]) ==>
      NewestPdf(s.outputs, s.reqs[i].book) == Some(Output(s.reqs[i].book, Pdf, s.reqs[i].kind, i))
  }

  /** Outputs change in three ways: a PDF or an EPUB is appended, or a kind of row is pruned. */
  lemma AppendKeepsPdfNewest(s: State, t: State, i: nat, o: Output)
    requires Exclusive(s) && PdfNewest(s) && i < |s.reqs| && o.book == s.reqs[i].book
    requires |t.reqs| == |s.reqs| && forall j :: 0 <= j < |s.reqs| && j != i ==> t.reqs[j] == s.reqs[j]
    requires t.reqs[i].book == s.reqs[i].book && t.reqs[i].kind == s.reqs[i].kind
    requires t.outputs == s.outputs + [o] && Holding(s.reqs[i])
    requires PdfIsStored(t.reqs[i]) ==>
      o == Output(s.reqs[i].book, Pdf, s.reqs[i].kind, i) || (o.format == Epub && PdfIsStored(s.reqs[i]))
    ensures PdfNewest(t)
  {
    assert t.outputs[..|t.outputs| - 1] == s.outputs;
  }

  lemma PruneKeepsPdfNewest(s: State, t: State, i: nat, f: Format, kinds: set<Kind>, keep: nat)
    requires PdfNewest(s) && i < |s.reqs| && keep >= 1
    requires |t.reqs| == |s.reqs| && forall j :: 0 <= j < |s.reqs| && j != i ==> t.reqs[j] == s.reqs[j]
    requires t.reqs[i].book == s.reqs[i].book && t.reqs[i].kind == s.reqs[i].kind
    requires t.outputs == Prune(s.outputs, s.reqs[i].book, f, kinds, keep)
    requires PdfIsStored(t.reqs[i]) ==> PdfIsStored(s.reqs[i])
    ensures PdfNewest(t)
  {
    forall j | 0 <= j < |t.reqs| && PdfIsStored(t.reqs[j])
      ensures NewestPdf(t.outputs, t.reqs[j].book) == NewestPdf(s.outputs, t.reqs[j].book)
    {
      PruneKeepsNewest(s.outputs, s.reqs[i].book, f, kinds, keep, t.reqs[j].book);
    }
  }

  lemma EpubKeepsPdfNewest(s: State, i: nat, stored: bool, ok: bool)
    requires Exclusive(s) && PdfNewest(s)
    requires At(s, i, EpubStage) || (At(s, i, Typeset) && s.reqs[i].format == Epub)
    ensures PdfNewest(StepEpub(s, i, stored, ok))
  {
    var t := StepEpub(s, i, stored, ok);
    var o := Output(s.reqs[i].book, Epub, s.reqs[i].kind, i);
    var mid := if stored then s.(outputs := s.outputs + [o]) else s;
    if stored {
      AppendKeepsPdfNewest(s, mid, i, o);
    }
    if ok {
      PruneKeepsPdfNewest(mid, t, i, Epub, {Proof, Final}, EPUB_OUTPUTS_KEPT);
    }
  }

  /** Outputs untouched, and request i has no newly stored PDF. */
  predicate QuietStep(s: State, t: State, i: nat) {
    && i < |s.reqs| == |t.reqs|
    && t.outputs == s.outputs
    && t.reqs == s.reqs[i := t.reqs[i]]
    && t.reqs[i].book == s.reqs[i].book && t.reqs[i].kind == s.reqs[i].kind && t.reqs[i].format == s.reqs[i].format
    && (PdfIsStored(t.reqs[i]) ==> PdfIsStored(s.reqs[i]))
  }

  lemma HandlerIsQuiet(s: State, i: nat, ok: bool)
    requires i < |s.reqs| && s.reqs[i].book in s.books
    requires s.reqs[i].pc in {RecordKind, Claim, DebitRow, Unclaim}
    ensures var t := StepStatement(s, i, ok); QuietStep(s, t, i)
  {
  }

  lemma FailureIsQuiet(s: State, i: nat, ok: bool)
    requires i < |s.reqs| && s.reqs[i].book in s.books
    requires s.reqs[i].pc in {MarkFailed, Reread, LookupPass, Refund, RefundRow}
    ensures var t := StepStatement(s, i, ok); QuietStep(s, t, i)
  {
  }

  lemma QuietOutputs(s: State, i: nat, ok: bool)
    requires i < |s.reqs| && s.reqs[i].book in s.books
    requires s.reqs[i].pc == Typeset ==> !ok || s.reqs[i].format == Epub
    requires s.reqs[i].pc == PruneProofs ==> !ok || s.reqs[i].kind != Proof
    ensures QuietStep(s, StepStatement(s, i, ok), i)
  {
    match s.reqs[i].pc {
      case RecordKind | Claim | DebitRow | Unclaim => HandlerIsQuiet(s, i, ok);
      case MarkFailed | Reread | LookupPass | Refund | RefundRow => FailureIsQuiet(s, i, ok);
      case _ => assert s.reqs == s.reqs[i := s.reqs[i]];
    }
  }

  lemma QuietKeepsPdfNewest(s: State, t: State, i: nat)
    requires PdfNewest(s) && QuietStep(s, t, i)
    ensures PdfNewest(t)
  {
    forall j | 0 <= j < |t.reqs| && PdfIsStored(t.reqs[j])
      ensures PdfIsStored(s.reqs[j]) && t.reqs[j].book == s.reqs[j].book && t.reqs[j].kind == s.reqs[j].kind
    {
      assert j != i ==> t.reqs[j] == s.reqs[j];
    }
  }

  lemma StatementKeepsPdfNewest(s: State, i: nat, ok: bool)
    requires Exclusive(s) && PdfNewest(s) && i < |s.reqs|
    ensures PdfNewest(StepStatement(s, i, ok))
  {
    if s.reqs[i].pc == Typeset && ok && s.reqs[i].format != Epub {
      var t := StepTypeset(s, i, ok);
      AppendKeepsPdfNewest(s, t, i, Output(s.reqs[i].book, Pdf, s.reqs[i].kind, i));
    } else if s.reqs[i].pc == PruneProofs && ok && s.reqs[i].kind == Proof {
      var t := StepPrune(s, i, ok);
      PruneKeepsPdfNewest(s, t, i, Pdf, {Proof}, PROOF_OUTPUTS_KEPT);
    } else {
      QuietOutputs(s, i, ok);
      QuietKeepsPdfNewest(s, StepStatement(s, i, ok), i);
    }
  }

  lemma OwnStepIsQuiet(s: State, e: Event)
    requires Exclusive(s) && (e.EAccess? || e.ECountBuilds? || e.EDebit?) && e.i < |s.reqs|
    ensures QuietStep(s, Step(s, e), e.i)
  {
    assert s.reqs == s.reqs[e.i := s.reqs[e.i]];
  }

  lemma EnvironmentKeepsPdfNewest(s: State, e: Event)
    requires PdfNewest(s) && (e.EUpload? || e.ENewPass? || e.EGrant? || e.EBegin? || e.ECrash?)
    ensures PdfNewest(Step(s, e))
  {
    assert Step(s, e).outputs == s.outputs;
  }

  lemma StepKeepsPdfNewest(s: State, e: Event)
    requires Exclusive(s) && PdfNewest(s)
    ensures PdfNewest(Step(s, e))
  {
    match e {
      case EStatement(i, ok) => if i < |s.reqs| { StatementKeepsPdfNewest(s, i, ok); }
      case EEpub(i, stored, ok) =>
        if (stored || !ok) && (At(s, i, EpubStage) || (At(s, i, Typeset) && s.reqs[i].format == Epub)) {
          EpubKeepsPdfNewest(s, i, stored, ok);
        }
      case EAccess(i, _, _, _) => if i < |s.reqs| { OwnStepIsQuiet(s, e); QuietKeepsPdfNewest(s, Step(s, e), i); }
      case ECountBuilds(i, _, _) => if i < |s.reqs| { OwnStepIsQuiet(s, e); QuietKeepsPdfNewest(s, Step(s, e), i); }
      case EDebit(i, _, _) => if i < |s.reqs| { OwnStepIsQuiet(s, e); QuietKeepsPdfNewest(s, Step(s, e), i); }
      case _ => EnvironmentKeepsPdfNewest(s, e);
    }
  }

  lemma {:induction false} RunKeepsPdfNewest(s: State, events: seq<Event>)
    requires Start(s)
    ensures PdfNewest(Run(s, events))
  {
    if events != [] {
      RunKeepsPdfNewest(s, events[..|events| - 1]);
      RunKeepsExclusive(s, events[..|events| - 1]);
      StepKeepsPdfNewest(Run(s, events[..|events| - 1]), events[|events| - 1]);
    }
  }

  /** When a run's next event sets a book ready for a pdf or both build, the PDF a download of
      the book then serves is the one this build stored, stamped with this build's kind. */
  lemma ReadyServesOwnPdf(s: State, events: seq<Event>, i: nat)
    requires Start(s)
    requires At(Run(s, events), i, MarkReady) && Run(s, events).reqs[i].format != Epub
    ensures var r := Run(s, events).reqs[i];
      var u := Step(Run(s, events), EStatement(i, true));
      u.books[r.book].status == Ready && u.reqs[i].pc == Done(Delivered)
      && NewestPdf(u.outputs, r.book) == Some(Output(r.book, Pdf, r.kind, i))
  {
    RunKeepsPdfNewest(s, events);
  }

  /** A final PDF, once stored, is in the table for ever: it is what the pass bought. */
  lemma {:induction false} FinalsAreNeverPruned(s: State, events: seq<Event>, o: Output)
    requires o in s.outputs && o.format == Pdf && o.kind == Final
    ensures o in Run(s, events).outputs
  {
    if events != [] {
      FinalsAreNeverPruned(s, events[..|events| - 1], o);
      StepKeepsFinal(Run(s, events[..|events| - 1]), events[|events| - 1], o);
    }
  }

  lemma StepKeepsFinal(s: State, e: Event, o: Output)
    requires o in s.outputs && o.format == Pdf && o.kind == Final
    ensures o in Step(s, e).outputs
  {
    match e {
      case EStatement(i, ok) =>
        if At(s, i, PruneProofs) {
          PruneKeepsOthers(s.outputs, s.reqs[i].book, Pdf, {Proof}, PROOF_OUTPUTS_KEPT, o);
        } else if i < |s.reqs| && s.reqs[i].book in s.books && s.reqs[i].pc != Typeset {
          QuietOutputs(s, i, ok);
        }
      case EEpub(i, stored, ok) =>
        if i < |s.reqs| {
          var outs := if stored then s.outputs + [Output(s.reqs[i].book, Epub, s.reqs[i].kind, i)] else s.outputs;
          PruneKeepsOthers(outs, s.reqs[i].book, Epub, {Proof, Final}, EPUB_OUTPUTS_KEPT, o);
        }
      case _ =>
    }
  }

  // ----- the credit cap ------------------------------------------------------------------------

  /** The event does not debit this project's pass past the balance check: it is not a debit by
      an admin, nor one made while the finals gate is off. */
  predicate Metered(s: State, e: Event, project: int) {
    e.EDebit? && At(s, e.i, Debit) && s.reqs[e.i].project == Some(project) ==> !s.reqs[e.i].admin && !e.gateOff
  }

  ghost predicate MeteredRun(s: State, events: seq<Event>, project: int) {
    events == [] || (MeteredRun(s, events[..|events| - 1], project)
                     && Metered(Run(s, events[..|events| - 1]), events[|events| - 1], project))
  }

  predicate WithinPass(s: State, project: int) {
    project in s.passes ==> s.passes[project].used <= s.passes[project].included + s.passes[project].extra
  }

  /** Whatever fails and whoever races, metered builds never spend a credit the pass has not got. */
  lemma {:induction false} CapHolds(s: State, events: seq<Event>, project: int)
    requires WithinPass(s, project) && MeteredRun(s, events, project)
    ensures WithinPass(Run(s, events), project)
  {
    if events != [] {
      CapHolds(s, events[..|events| - 1], project);
      StepKeepsCap(Run(s, events[..|events| - 1]), events[|events| - 1], project);
    }
  }

  lemma StepKeepsCap(s: State, e: Event, project: int)
    requires WithinPass(s, project)
    requires Metered(s, e, project)
    ensures WithinPass(Step(s, e), project)
  {
  }

  /** An unmetered debit is the only step that can break the cap, and it does so exactly when
      the pass is already spent. */
  lemma UnmeteredBreaksCap(s: State, e: Event, project: int)
    requires WithinPass(s, project) && !Metered(s, e, project)
    ensures !WithinPass(Step(s, e), project) <==> e.ok && project in s.passes && !CreditLeft(s.passes[project])
  {
  }
}
