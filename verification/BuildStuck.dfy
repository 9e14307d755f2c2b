/** Books left converting with no build behind them: which steps leave one so, why nothing undoes
    it, restarts of the process included, and a run without any failure that gets there. */
module BuildStuck {
  import opened Options
  import opened BuildProtocol
  import opened BuildSafety
  import opened BuildCredits
  import opened BuildRaces

  /** The book is marked converting and no request owns it. */
  ghost predicate Stuck(s: State, book: int) {
    && book in s.books && s.books[book].status == Converting
    && forall i :: 0 <= i < |s.reqs| && Holding(s.reqs[i]) ==> s.reqs[i].book != book
  }

  /** A build of the book is in flight. */
  ghost predicate Owned(s: State, book: int) {
    exists i :: 0 <= i < |s.reqs| && Holding(s.reqs[i]) && s.reqs[i].book == book
  }

  /** Request i gives its book up without the status that ends a build being written: unclaim
      fails or writes back a converting status, the error status is not written, or the ready
      status of an epub build is not written. */
  predicate LetsGo(r: Req, ok: bool) {
    || (r.pc == Unclaim && (ok ==> r.saved == Converting))
    || (r.pc == MarkFailed && !ok)
    || (r.pc == MarkReady && !ok && r.format == Epub)
  }

  /** The step leaves the book converting with no build: the process dies during one, or the
      owner lets go of it. */
  ghost predicate Sticks(s: State, e: Event, book: int) {
    match e
    case ECrash => Owned(s, book)
    case EStatement(i, ok) => i < |s.reqs| && s.reqs[i].book == book && LetsGo(s.reqs[i], ok)
    case _ => false
  }

  lemma OwnedIsMarked(s: State, book: int)
    requires Exclusive(s) && Owned(s, book)
    ensures book in s.books && s.books[book].status == Converting
  {
  }

  // Another request owns nothing of what request i owns.
  lemma SoleOwner(s: State, i: nat, j: nat)
    requires Exclusive(s) && i < |s.reqs| && j < |s.reqs| && i != j && Holding(s.reqs[i]) && Holding(s.reqs[j])
    ensures s.reqs[i].book != s.reqs[j].book
  {
    if i < j {
      assert s.reqs[i].book != s.reqs[j].book;
    } else {
      assert s.reqs[j].book != s.reqs[i].book;
    }
  }

  // ----- the steps of one request ---------------------------------------------------------------

  /** What a step of request i does to its hold on its book. */
  ghost predicate Handover(s: State, t: State, i: nat, lets: bool)
    requires i < |s.reqs| && i < |t.reqs| && s.reqs[i].book in s.books && s.reqs[i].book in t.books
  {
    var b := s.reqs[i].book;
    && (lets ==> Holding(s.reqs[i]) && !Holding(t.reqs[i]) && t.books[b].status == Converting)
    && (!lets && t.books[b].status == Converting && !Holding(t.reqs[i]) ==>
          !Holding(s.reqs[i]) && s.books[b].status == Converting)
    && (!Holding(s.reqs[i]) && s.books[b].status == Converting ==>
          !Holding(t.reqs[i]) && t.books[b].status == Converting)
  }

  lemma HandlerHandsOver(s: State, i: nat, ok: bool)
    requires Exclusive(s) && i < |s.reqs| && s.reqs[i].pc in {RecordKind, Claim, DebitRow, Unclaim}
    ensures var t := StepStatement(s, i, ok);
      i < |t.reqs| && s.reqs[i].book in t.books && Handover(s, t, i, LetsGo(s.reqs[i], ok))
  {
  }

  lemma BuildHandsOver(s: State, i: nat, ok: bool)
    requires Exclusive(s) && i < |s.reqs| && s.reqs[i].pc in {Typeset, PruneProofs, MarkReady}
    ensures var t := StepStatement(s, i, ok);
      i < |t.reqs| && s.reqs[i].book in t.books && Handover(s, t, i, LetsGo(s.reqs[i], ok))
  {
  }

  lemma FailureHandsOver(s: State, i: nat, ok: bool)
    requires Exclusive(s) && i < |s.reqs| && s.reqs[i].pc in {MarkFailed, Reread, LookupPass, Refund, RefundRow}
    ensures var t := StepStatement(s, i, ok);
      i < |t.reqs| && s.reqs[i].book in t.books && Handover(s, t, i, LetsGo(s.reqs[i], ok))
  {
  }

  lemma StatementHandsOver(s: State, i: nat, ok: bool)
    requires Exclusive(s) && i < |s.reqs|
    ensures var t := StepStatement(s, i, ok);
      i < |t.reqs| && s.reqs[i].book in t.books && Handover(s, t, i, LetsGo(s.reqs[i], ok))
  {
    match s.reqs[i].pc {
      case RecordKind | Claim | DebitRow | Unclaim => HandlerHandsOver(s, i, ok);
      case Typeset | PruneProofs | MarkReady => BuildHandsOver(s, i, ok);
      case MarkFailed | Reread | LookupPass | Refund | RefundRow => FailureHandsOver(s, i, ok);
      case _ =>
    }
  }

  lemma AccessHandsOver(s: State, i: nat, g: bool, refuse: bool, ok: bool)
    requires Exclusive(s) && At(s, i, Access)
    ensures var t := StepAccess(s, i, g, refuse, ok);
      i < |t.reqs| && s.reqs[i].book in t.books && Handover(s, t, i, false)
  {
  }

  lemma CountHandsOver(s: State, i: nat, refuse: bool, ok: bool)
    requires Exclusive(s) && At(s, i, CountBuilds)
    ensures var t := StepCountBuilds(s, i, refuse, ok);
      i < |t.reqs| && s.reqs[i].book in t.books && Handover(s, t, i, false)
  {
  }

  lemma DebitHandsOver(s: State, i: nat, g: bool, ok: bool)
    requires Exclusive(s) && At(s, i, Debit)
    ensures var t := StepDebit(s, i, g, ok);
      i < |t.reqs| && s.reqs[i].book in t.books && Handover(s, t, i, false)
  {
  }

  lemma EpubHandsOver(s: State, i: nat, stored: bool, ok: bool)
    requires Exclusive(s) && (At(s, i, EpubStage) || (At(s, i, Typeset) && s.reqs[i].format == Epub))
    ensures var t := StepEpub(s, i, stored, ok);
      i < |t.reqs| && s.reqs[i].book in t.books && Handover(s, t, i, false)
  {
  }

  lemma OwnStepHandsOver(s: State, e: Event)
    requires Exclusive(s) && OwnStep(s, e)
    ensures Local(s, Step(s, e), e.i)
    ensures Handover(s, Step(s, e), e.i, Sticks(s, e, s.reqs[e.i].book))
  {
    OwnStepIsLocal(s, e);
    match e {
      case EStatement(i, ok) => StatementHandsOver(s, i, ok);
      case EAccess(i, g, refuse, ok) => if At(s, i, Access) { AccessHandsOver(s, i, g, refuse, ok); }
      case ECountBuilds(i, refuse, ok) => if At(s, i, CountBuilds) { CountHandsOver(s, i, refuse, ok); }
      case EDebit(i, g, ok) => if At(s, i, Debit) { DebitHandsOver(s, i, g, ok); }
      case EEpub(i, stored, ok) =>
        if At(s, i, EpubStage) || (At(s, i, Typeset) && s.reqs[i].format == Epub) {
          EpubHandsOver(s, i, stored, ok);
        }
    }
  }

  // A local step of i leaves another book's standing as it was.
  lemma OtherBook(s: State, t: State, i: nat, book: int)
    requires Exclusive(s) && i < |s.reqs| && Local(s, t, i) && s.reqs[i].book != book
    ensures Stuck(t, book) <==> Stuck(s, book)
  {
    assert forall j :: 0 <= j < |s.reqs| && j != i ==> t.reqs[j] == s.reqs[j];
  }

  // Given what the step does to its own book, the standing of that book follows.
  lemma OwnBook(s: State, t: State, i: nat, lets: bool)
    requires Exclusive(s) && i < |s.reqs| && Local(s, t, i) && Handover(s, t, i, lets)
    ensures var b := s.reqs[i].book; Stuck(t, b) <==> Stuck(s, b) || lets
  {
    var b := s.reqs[i].book;
    assert forall j :: 0 <= j < |s.reqs| && j != i ==> t.reqs[j] == s.reqs[j];
    if lets {
      forall j | 0 <= j < |t.reqs| && Holding(t.reqs[j]) ensures t.reqs[j].book != b {
        SoleOwner(s, i, j);
      }
    }
    if Stuck(t, b) && !lets {
      forall j | 0 <= j < |s.reqs| && Holding(s.reqs[j]) ensures s.reqs[j].book != b {
        assert j != i ==> t.reqs[j] == s.reqs[j];
      }
    }
    if Stuck(s, b) {
      forall j | 0 <= j < |t.reqs| && Holding(t.reqs[j]) ensures t.reqs[j].book != b {
        assert j != i ==> t.reqs[j] == s.reqs[j];
      }
    }
  }

  lemma CrashSticks(s: State, book: int)
    requires Exclusive(s)
    ensures Stuck(Step(s, ECrash), book) <==> Stuck(s, book) || Owned(s, book)
  {
    var t := Step(s, ECrash);
    assert forall j :: 0 <= j < |t.reqs| ==> !Holding(t.reqs[j]);
    if Owned(s, book) {
      OwnedIsMarked(s, book);
    }
  }

  lemma EnvironmentSticks(s: State, e: Event, book: int)
    requires Exclusive(s) && !OwnStep(s, e) && !e.ECrash?
    ensures Stuck(Step(s, e), book) <==> Stuck(s, book)
  {
    var t := Step(s, e);
    assert forall j :: 0 <= j < |s.reqs| ==> t.reqs[j] == s.reqs[j];
    assert forall j :: |s.reqs| <= j < |t.reqs| ==> !Holding(t.reqs[j]);
  }

  /** After a step a book is stuck exactly when it was before, or the step is one of those listed. */
  lemma StuckStep(s: State, e: Event, book: int)
    requires Exclusive(s)
    ensures Stuck(Step(s, e), book) <==> Stuck(s, book) || Sticks(s, e, book)
  {
    if e.ECrash? {
      CrashSticks(s, book);
    } else if !OwnStep(s, e) {
      EnvironmentSticks(s, e, book);
    } else {
      OwnStepHandsOver(s, e);
      if s.reqs[e.i].book == book {
        OwnBook(s, Step(s, e), e.i, Sticks(s, e, book));
      } else {
        OtherBook(s, Step(s, e), e.i, book);
      }
    }
  }

  // ----- runs -----------------------------------------------------------------------------------

  /** The book was not converting when the process started, and no step on the way left it stuck. */
  ghost predicate NeverStuck(s: State, events: seq<Event>, book: int) {
    if events == [] then !Stuck(s, book)
    else
      NeverStuck(s, events[..|events| - 1], book) &&
      !Sticks(Run(s, events[..|events| - 1]), events[|events| - 1], book)
  }

  /** On every run, with any failures and crashes, exactly those steps leave a book stuck. */
  lemma {:induction false} StuckRuns(s: State, events: seq<Event>, book: int)
    requires Start(s)
    ensures Stuck(Run(s, events), book) <==> !NeverStuck(s, events, book)
  {
    if events != [] {
      var front := events[..|events| - 1];
      StuckRuns(s, front, book);
      RunKeepsExclusive(s, front);
      StuckStep(Run(s, front), events[|events| - 1], book);
    }
  }

  /** The books a claim looks at: the book itself and the others of its project. */
  predicate Together(books: map<int, Book>, b: int, c: int)
    requires b in books && c in books
  {
    c == b || (books[b].project.Some? && books[c].project == books[b].project)
  }

  /** With no build in flight beside it, a book can be claimed exactly when nothing beside it is stuck. */
  lemma IdleIsClaimable(s: State, b: int)
    requires b in s.books
    requires forall c :: c in s.books && Together(s.books, b, c) ==> !Owned(s, c)
    ensures Claimable(s.books, b) <==> forall c :: c in s.books && Together(s.books, b, c) ==> !Stuck(s, c)
  {
    forall c | c in s.books && Together(s.books, b, c)
      ensures Stuck(s, c) <==> s.books[c].status == Converting
    {
      assert !Owned(s, c);
    }
    if Claimable(s.books, b) {
      forall c | c in s.books && Together(s.books, b, c) ensures !Stuck(s, c) {
        assert s.books[c].status != Converting;
      }
    }
  }

  /** Once stuck, a book stays so, and no book beside it is ever claimed again, whatever crashes and
      restarts follow. */
  lemma {:induction false} StuckForever(s: State, before: seq<Event>, events: seq<Event>, book: int)
    requires Start(s) && Stuck(Run(s, before), book)
    ensures var t := Run(s, before + events);
      Stuck(t, book) && forall b :: b in t.books && Together(t.books, b, book) ==> !Claimable(t.books, b)
  {
    if events == [] {
      assert before + events == before;
    } else {
      var front, e := events[..|events| - 1], events[|events| - 1];
      assert before + events == (before + front) + [e];
      StuckForever(s, before, front, book);
      RunSnoc(s, before + front, e);
      RunKeepsExclusive(s, before + front);
      StuckStep(Run(s, before + front), e, book);
    }
  }

  // ----- what unclaim puts back -------------------------------------------------------------------

  /** What a request read when it began. */
  predicate SameReads(r: Req, q: Req) {
    r.book == q.book && r.saved == q.saved
  }

  lemma HandlerKeepsReads(s: State, i: nat, ok: bool)
    requires i < |s.reqs| && s.reqs[i].book in s.books && s.reqs[i].pc in {RecordKind, Claim, DebitRow, Unclaim}
    ensures var t := StepStatement(s, i, ok); |t.reqs| == |s.reqs| && SameReads(s.reqs[i], t.reqs[i])
  {
  }

  lemma BuildKeepsReads(s: State, i: nat, ok: bool)
    requires i < |s.reqs| && s.reqs[i].book in s.books && s.reqs[i].pc in {Typeset, PruneProofs, MarkReady}
    ensures var t := StepStatement(s, i, ok); |t.reqs| == |s.reqs| && SameReads(s.reqs[i], t.reqs[i])
  {
  }

  lemma FailureKeepsReads(s: State, i: nat, ok: bool)
    requires i < |s.reqs| && s.reqs[i].book in s.books
    requires s.reqs[i].pc in {MarkFailed, Reread, LookupPass, Refund, RefundRow}
    ensures var t := StepStatement(s, i, ok); |t.reqs| == |s.reqs| && SameReads(s.reqs[i], t.reqs[i])
  {
  }

  lemma StatementKeepsReads(s: State, i: nat, ok: bool)
    requires i < |s.reqs| && s.reqs[i].book in s.books
    ensures var t := StepStatement(s, i, ok); |t.reqs| == |s.reqs| && SameReads(s.reqs[i], t.reqs[i])
  {
    match s.reqs[i].pc {
      case RecordKind | Claim | DebitRow | Unclaim => HandlerKeepsReads(s, i, ok);
      case Typeset | PruneProofs | MarkReady => BuildKeepsReads(s, i, ok);
      case MarkFailed | Reread | LookupPass | Refund | RefundRow => FailureKeepsReads(s, i, ok);
      case _ =>
    }
  }

  lemma StepKeepsReads(s: State, e: Event, j: nat)
    requires Exclusive(s) && j < |s.reqs|
    ensures j < |Step(s, e).reqs| && SameReads(s.reqs[j], Step(s, e).reqs[j])
  {
    if OwnStep(s, e) {
      OwnStepIsLocal(s, e);
      if e.EStatement? {
        StatementKeepsReads(s, e.i, e.ok);
      }
    }
  }

  lemma {:induction false} RunKeepsReads(s: State, before: seq<Event>, events: seq<Event>, j: nat)
    requires Start(s) && j < |Run(s, before).reqs|
    ensures j < |Run(s, before + events).reqs|
    ensures SameReads(Run(s, before).reqs[j], Run(s, before + events).reqs[j])
  {
    if events == [] {
      assert before + events == before;
    } else {
      var front, e := events[..|events| - 1], events[|events| - 1];
      assert before + events == (before + front) + [e];
      RunKeepsReads(s, before, front, j);
      RunSnoc(s, before + front, e);
      RunKeepsExclusive(s, before + front);
      StepKeepsReads(Run(s, before + front), e, j);
    }
  }

  lemma BeginReads(s: State, e: Event)
    requires e.EBegin? && e.bookId in s.books
    ensures var t := Step(s, e);
      |t.reqs| == |s.reqs| + 1 && t.reqs[|s.reqs|].book == e.bookId
      && t.reqs[|s.reqs|].saved == s.books[e.bookId].status
  {
  }

  /** What a request holds as saved is the status of its book when it began. */
  lemma SavedIsRead(s: State, before: seq<Event>, e: Event, after: seq<Event>)
    requires Start(s) && e.EBegin? && e.bookId in Run(s, before).books
    ensures var i := |Run(s, before).reqs|;
      var t := Run(s, before + [e] + after);
      i < |t.reqs| && t.reqs[i].book == e.bookId && t.reqs[i].saved == Run(s, before).books[e.bookId].status
  {
    RunSnoc(s, before, e);
    BeginReads(Run(s, before), e);
    RunKeepsReads(s, before + [e], after, |Run(s, before).reqs|);
  }

  // A request that owns its book now did not begin while it was stuck.
  lemma OwnerFoundItFree(s: State, before: seq<Event>, e: Event, after: seq<Event>)
    requires Start(s) && e.EBegin? && e.bookId in Run(s, before).books
    requires Owned(Run(s, before + [e] + after), e.bookId)
    ensures !Stuck(Run(s, before), e.bookId)
  {
    assert before + ([e] + after) == before + [e] + after;
    if Stuck(Run(s, before), e.bookId) {
      StuckForever(s, before, [e] + after, e.bookId);
    }
  }

  lemma ReadWhileOwned(s: State, before: seq<Event>, b: int)
    requires Start(s) && b in Run(s, before).books && !Stuck(Run(s, before), b)
    ensures Run(s, before).books[b].status == Converting <==> Owned(Run(s, before), b)
  {
    RunKeepsExclusive(s, before);
    if Owned(Run(s, before), b) {
      OwnedIsMarked(Run(s, before), b);
    }
  }

  /** unclaim writes back the status its request read at the start. That leaves the book stuck
      exactly when a build of the book was in flight at that moment. */
  lemma UnclaimSticks(s: State, before: seq<Event>, e: Event, after: seq<Event>)
    requires Start(s) && e.EBegin? && e.bookId in Run(s, before).books
    requires At(Run(s, before + [e] + after), |Run(s, before).reqs|, Unclaim)
    ensures var i := |Run(s, before).reqs|;
      Stuck(Step(Run(s, before + [e] + after), EStatement(i, true)), e.bookId) <==> Owned(Run(s, before), e.bookId)
  {
    var i, t := |Run(s, before).reqs|, Run(s, before + [e] + after);
    SavedIsRead(s, before, e, after);
    assert Holding(t.reqs[i]) && t.reqs[i].book == e.bookId;
    OwnerFoundItFree(s, before, e, after);
    ReadWhileOwned(s, before, e.bookId);
    RunKeepsExclusive(s, before + [e] + after);
    StuckStep(t, EStatement(i, true), e.bookId);
  }

  // ----- a run without any failure ------------------------------------------------------------------

  /** Two requests for the one book, with the outputs stored so far. */
  function World(st: Status, used: nat, lg: seq<LedgerRow>, o: seq<Output>, r: Req, l: Req): State {
    Pair(st, Final, used, lg, r, l).(outputs := o)
  }

  function First(pc: PC): Req {
    Request(Final, Uploaded, true, pc)
  }

  /** The second request read the book while the first was building it. */
  function Second(pc: PC): Req {
    Request(Final, Converting, true, pc)
  }

  const BEGIN_1 := EBegin(1, Pdf, Final, false)
  const ACCESS_1 := EAccess(1, false, false, true)
  const COUNT_1 := ECountBuilds(1, false, true)
  const DEBIT_1 := EDebit(1, false, true)

  function Row(): LedgerRow {
    LedgerRow(5, 1, -1, Build)
  }

  function Stored(): Output {
    Output(1, Pdf, Final, 0)
  }

  lemma RecordAlone()
    ensures Step(Idle([First(RecordKind)]), NEXT_0) == Idle([First(Claim)])
  {
    assert [First(RecordKind)][0 := First(Claim)] == [First(Claim)];
  }

  lemma ClaimAlone()
    ensures Step(Idle([First(Claim)]), NEXT_0) == OneBook(Converting, Final, 0, [], [First(Debit)])
  {
    assert [First(Claim)][0 := First(Debit)] == [First(Debit)];
  }

  lemma SecondBegins()
    ensures Step(OneBook(Converting, Final, 0, [], [First(Debit)]), BEGIN_1)
         == World(Converting, 0, [], [], First(Debit), Second(Access).(hasPass := false))
  {
    var q := Second(Access).(hasPass := false);
    assert [First(Debit)] + [q] == [First(Debit), q];
  }

  lemma SecondEnters()
    ensures Step(World(Converting, 0, [], [], First(Debit), Second(Access).(hasPass := false)), ACCESS_1)
         == World(Converting, 0, [], [], First(Debit), Second(CountBuilds))
  {
    SetFirst(First(Debit), Second(Access).(hasPass := false), Second(CountBuilds));
  }

  lemma FirstPays()
    ensures Step(Step(World(Converting, 0, [], [], First(Debit), Second(CountBuilds)), DEBIT_0), NEXT_0)
         == World(Converting, 1, [Row()], [], Charged(Typeset), Second(CountBuilds))
  {
    DebitFirst(Converting, Final, [], First(Debit), Second(CountBuilds));
    DebitRowFirst(Converting, Final, 1, [], First(DebitRow).(debits := 1), Second(CountBuilds));
    assert [] + [Row()] == [Row()];
  }

  lemma FirstTypesets(l: Req)
    ensures Step(World(Converting, 1, [Row()], [], Charged(Typeset), l), NEXT_0)
         == World(Converting, 1, [Row()], [Stored()], Charged(PruneProofs), l)
  {
    SetFirst(Charged(Typeset), l, Charged(PruneProofs));
    assert [] + [Stored()] == [Stored()];
  }

  lemma FirstPrunes(l: Req)
    ensures Step(World(Converting, 1, [Row()], [Stored()], Charged(PruneProofs), l), NEXT_0)
         == World(Converting, 1, [Row()], [Stored()], Charged(MarkReady), l)
  {
    SetFirst(Charged(PruneProofs), l, Charged(MarkReady));
  }

  lemma FirstIsReady(l: Req)
    ensures Step(World(Converting, 1, [Row()], [Stored()], Charged(MarkReady), l), NEXT_0)
         == World(Ready, 1, [Row()], [Stored()], Charged(Done(Delivered)), l)
  {
    SetFirst(Charged(MarkReady), l, Charged(Done(Delivered)));
  }

  lemma SecondCounts(r: Req)
    ensures Step(World(Ready, 1, [Row()], [Stored()], r, Second(CountBuilds)), COUNT_1)
         == World(Ready, 1, [Row()], [Stored()], r, Second(RecordKind))
  {
    SetFirst(r, Second(CountBuilds), Second(RecordKind));
  }

  lemma SecondRecords(r: Req)
    ensures Step(World(Ready, 1, [Row()], [Stored()], r, Second(RecordKind)), NEXT_1)
         == World(Ready, 1, [Row()], [Stored()], r, Second(Claim))
  {
    SetFirst(r, Second(RecordKind), Second(Claim));
  }

  lemma SecondClaims(r: Req)
    ensures Step(World(Ready, 1, [Row()], [Stored()], r, Second(Claim)), NEXT_1)
         == World(Converting, 1, [Row()], [Stored()], r, Second(Debit))
  {
    SetFirst(r, Second(Claim), Second(Debit));
  }

  lemma SecondIsRefused(r: Req)
    ensures Step(World(Converting, 1, [Row()], [Stored()], r, Second(Debit)), DEBIT_1)
         == World(Converting, 1, [Row()], [Stored()], r, Second(Unclaim))
  {
    SetFirst(r, Second(Debit), Second(Unclaim));
  }

  lemma SecondUnclaims(r: Req)
    ensures Step(World(Converting, 1, [Row()], [Stored()], r, Second(Unclaim)), NEXT_1)
         == World(Converting, 1, [Row()], [Stored()], r, Second(Done(Refused)))
  {
    SetFirst(r, Second(Unclaim), Second(Done(Refused)));
  }

  /** A final claims the book; a second one reads it then, and is let in because one credit is left;
      the first pays and delivers; the second claims, finds no credit, and puts back what it read. */
  const STICKY_RUN := OpenOne(Final, 0) + [NEXT_0, NEXT_0, BEGIN_1] + [ACCESS_1, DEBIT_0, NEXT_0]
                     + [NEXT_0, NEXT_0, NEXT_0] + [COUNT_1, NEXT_1, NEXT_1]

  lemma StickyRunGoes()
    ensures Run(Fresh(), STICKY_RUN)
         == World(Converting, 1, [Row()], [Stored()], Charged(Done(Delivered)), Second(Debit))
  {
    OpenOneRuns([], Final);
    assert [] + [First(RecordKind)] == [First(RecordKind)];
    var a := OpenOne(Final, 0);
    RecordAlone();
    ClaimAlone();
    SecondBegins();
    SecondEnters();
    FirstPays();
    FirstTypesets(Second(CountBuilds));
    FirstPrunes(Second(CountBuilds));
    FirstIsReady(Second(CountBuilds));
    SecondCounts(Charged(Done(Delivered)));
    SecondRecords(Charged(Done(Delivered)));
    SecondClaims(Charged(Done(Delivered)));
    FiveRuns(Fresh(), a, [NEXT_0, NEXT_0, BEGIN_1], [ACCESS_1, DEBIT_0, NEXT_0], [NEXT_0, NEXT_0, NEXT_0],
      [COUNT_1, NEXT_1, NEXT_1]);
  }

  lemma FiveRuns(s: State, a: seq<Event>, b: seq<Event>, c: seq<Event>, d: seq<Event>, e: seq<Event>)
    requires |b| == |c| == |d| == |e| == 3
    ensures Run(s, a + b + c + d + e) == AfterThree(AfterThree(AfterThree(AfterThree(Run(s, a), b), c), d), e)
  {
    RunConcat(s, a + b + c + d, e);
    RunConcat(s, a + b + c, d);
    RunConcat(s, a + b, c);
    RunConcat(s, a, b);
    RunThree(Run(s, a), b);
    RunThree(Run(s, a + b), c);
    RunThree(Run(s, a + b + c), d);
    RunThree(Run(s, a + b + c + d), e);
  }

  /** No statement fails and nothing crashes, and the book ends converting with no build behind it. */
  lemma RefusedDebitSticks()
    ensures Start(Fresh())
    ensures var t := Run(Fresh(), STICKY_RUN + [DEBIT_1] + [NEXT_1]);
      Stuck(t, 1) && forall i :: 0 <= i < |t.reqs| ==> !t.reqs[i].fault
  {
    StickyRunGoes();
    RunSnoc(Fresh(), STICKY_RUN, DEBIT_1);
    RunSnoc(Fresh(), STICKY_RUN + [DEBIT_1], NEXT_1);
    SecondIsRefused(Charged(Done(Delivered)));
    SecondUnclaims(Charged(Done(Delivered)));
  }
}
