/** What the failure handler goes by, told from the run alone: the kind it re-reads is that of the
    last request that recorded one on the book, and the pass is the one the project has by then. */
module BuildRereads {
  import opened Options
  import opened BuildProtocol
  import opened BuildSafety
  import opened BuildCredits

  /** The step writes a build_kind to the book. */
  predicate Records(s: State, e: Event, book: int) {
    e.EStatement? && e.ok && At(s, e.i, RecordKind) && s.reqs[e.i].book == book
  }

  /** The kind of the last request that recorded one, or the kind the row came with. */
  function LastKind(s: State, events: seq<Event>, book: int): Kind {
    if events == [] then if book in s.books then s.books[book].buildKind else Final
    else
      var front, e := events[..|events| - 1], events[|events| - 1];
      if Records(Run(s, front), e, book) then Run(s, front).reqs[e.i].kind else LastKind(s, front, book)
  }

  /** The effect of one step on the kind in a row. */
  ghost predicate KindMoves(s: State, e: Event, book: int) {
    var t := Step(s, e);
    && (book in s.books ==>
          book in t.books
          && t.books[book].buildKind == if Records(s, e, book) then s.reqs[e.i].kind else s.books[book].buildKind)
    && (book !in s.books ==> !Records(s, e, book) && (book in t.books ==> t.books[book].buildKind == Final))
  }

  lemma HandlerMovesKind(s: State, i: nat, ok: bool, book: int)
    requires Exclusive(s) && i < |s.reqs| && s.reqs[i].pc in {RecordKind, Claim, DebitRow, Unclaim}
    ensures KindMoves(s, EStatement(i, ok), book)
  {
  }

  lemma BuildMovesKind(s: State, i: nat, ok: bool, book: int)
    requires Exclusive(s) && i < |s.reqs| && s.reqs[i].pc in {Typeset, PruneProofs, MarkReady}
    ensures KindMoves(s, EStatement(i, ok), book)
  {
  }

  lemma FailureMovesKind(s: State, i: nat, ok: bool, book: int)
    requires Exclusive(s) && i < |s.reqs| && s.reqs[i].pc in {MarkFailed, Reread, LookupPass, Refund, RefundRow}
    ensures KindMoves(s, EStatement(i, ok), book)
  {
  }

  lemma StepMovesKind(s: State, e: Event, book: int)
    requires Exclusive(s)
    ensures KindMoves(s, e, book)
  {
    match e {
      case EStatement(i, ok) =>
        if i < |s.reqs| {
          match s.reqs[i].pc {
            case RecordKind | Claim | DebitRow | Unclaim => HandlerMovesKind(s, i, ok, book);
            case Typeset | PruneProofs | MarkReady => BuildMovesKind(s, i, ok, book);
            case MarkFailed | Reread | LookupPass | Refund | RefundRow => FailureMovesKind(s, i, ok, book);
            case _ => assert Step(s, e) == s;
          }
        }
      case EUpload(_, _) =>
      case _ => assert Step(s, e).books == s.books;
    }
  }

  /** On every run, faults and crashes included, the row tells the last request that recorded a kind. */
  lemma {:induction false} KindIsLast(s: State, events: seq<Event>, book: int)
    requires Start(s)
    ensures book in Run(s, events).books ==> Run(s, events).books[book].buildKind == LastKind(s, events, book)
    ensures book !in Run(s, events).books ==> LastKind(s, events, book) == Final
  {
    if events != [] {
      var front := events[..|events| - 1];
      KindIsLast(s, front, book);
      RunKeepsExclusive(s, front);
      StepMovesKind(Run(s, front), events[|events| - 1], book);
    }
  }

  // ----- what a request's handler read --------------------------------------------------------------

  /** The last kind recorded when the handler of request i re-read the row, if it did. */
  function RereadIn(s: State, events: seq<Event>, i: nat): Option<Kind> {
    if events == [] then None
    else
      var front, e := events[..|events| - 1], events[|events| - 1];
      var t := Run(s, front);
      if e == EStatement(i, true) && At(t, i, Reread) then Some(LastKind(s, front, t.reqs[i].book))
      else RereadIn(s, front, i)
  }

  /** Whether the project had a pass when the handler of request i looked, if it did. */
  function FoundIn(s: State, events: seq<Event>, i: nat): Option<bool> {
    if events == [] then None
    else
      var front, e := events[..|events| - 1], events[|events| - 1];
      var t := Run(s, front);
      if e == EStatement(i, true) && At(t, i, LookupPass)
      then Some(t.reqs[i].project.Some? && t.reqs[i].project.value in t.passes)
      else FoundIn(s, front, i)
  }

  /** The effect of one step on what request j has read. */
  ghost predicate ReadsMove(s: State, e: Event, j: nat) {
    var t := Step(s, e);
    && |s.reqs| <= |t.reqs|
    && (|s.reqs| <= j < |t.reqs| ==> t.reqs[j].reread == None && t.reqs[j].found == None)
    && (j < |s.reqs| ==>
          && t.reqs[j].reread == (if e == EStatement(j, true) && At(s, j, Reread)
                                  then Some(s.books[s.reqs[j].book].buildKind) else s.reqs[j].reread)
          && t.reqs[j].found == (if e == EStatement(j, true) && At(s, j, LookupPass)
                                 then Some(s.reqs[j].project.Some? && s.reqs[j].project.value in s.passes)
                                 else s.reqs[j].found))
  }

  lemma HandlerReadsNothing(s: State, i: nat, ok: bool)
    requires Exclusive(s) && i < |s.reqs| && s.reqs[i].pc in {RecordKind, Claim, DebitRow, Unclaim}
    ensures ReadsMove(s, EStatement(i, ok), i)
  {
  }

  lemma BuildReadsNothing(s: State, i: nat, ok: bool)
    requires Exclusive(s) && i < |s.reqs| && s.reqs[i].pc in {Typeset, PruneProofs, MarkReady}
    ensures ReadsMove(s, EStatement(i, ok), i)
  {
  }

  lemma FailureReads(s: State, i: nat, ok: bool)
    requires Exclusive(s) && i < |s.reqs| && s.reqs[i].pc in {MarkFailed, Reread, LookupPass, Refund, RefundRow}
    ensures ReadsMove(s, EStatement(i, ok), i)
  {
  }

  lemma OwnStepReads(s: State, e: Event)
    requires Exclusive(s) && OwnStep(s, e)
    ensures ReadsMove(s, e, e.i)
  {
    match e {
      case EStatement(i, ok) =>
        match s.reqs[i].pc {
          case RecordKind | Claim | DebitRow | Unclaim => HandlerReadsNothing(s, i, ok);
          case Typeset | PruneProofs | MarkReady => BuildReadsNothing(s, i, ok);
          case MarkFailed | Reread | LookupPass | Refund | RefundRow => FailureReads(s, i, ok);
          case _ => assert Step(s, e) == s;
        }
      case _ =>
    }
  }

  lemma StepReads(s: State, e: Event, j: nat)
    requires Exclusive(s)
    ensures ReadsMove(s, e, j)
  {
    if OwnStep(s, e) {
      OwnStepReads(s, e);
      OwnStepIsLocal(s, e);
      assert j != e.i && j < |s.reqs| ==> Step(s, e).reqs[j] == s.reqs[j];
    }
  }

  /** A handler's two reads are what the run up to them says. */
  lemma {:induction false} ReadsAreOfTheRun(s: State, events: seq<Event>, i: nat)
    requires Start(s)
    ensures var t := Run(s, events);
      if i < |t.reqs| then t.reqs[i].reread == RereadIn(s, events, i) && t.reqs[i].found == FoundIn(s, events, i)
      else RereadIn(s, events, i) == None && FoundIn(s, events, i) == None
  {
    if events != [] {
      var front, e := events[..|events| - 1], events[|events| - 1];
      ReadsAreOfTheRun(s, front, i);
      RunKeepsExclusive(s, front);
      StepReads(Run(s, front), e, i);
      if At(Run(s, front), i, Reread) {
        KindIsLast(s, front, Run(s, front).reqs[i].book);
      }
    }
  }

  /** A failed build none of whose statements failed costs nothing exactly when: with a pass, the
      last kind recorded on its book before the re-read was its own; without one, that kind was
      proof or the project still had no pass. Without a pass it can only give a credit away. */
  lemma FailedBuildCost(s: State, events: seq<Event>, i: nat)
    requires Start(s) && i < |Run(s, events).reqs|
    requires !Run(s, events).reqs[i].fault && Run(s, events).reqs[i].pc == Done(BuildFailed)
    ensures var r := Run(s, events).reqs[i];
      var refund := RereadIn(s, events, i) == Some(Final) && FoundIn(s, events, i) == Some(true);
      && (Charge(r) == 0 <==> if r.hasPass then RereadIn(s, events, i) == Some(r.kind) else !refund)
      && (!r.hasPass && refund ==> Charge(r) == -1)
  {
    FinishedBuildCharge(s, events, i);
    ReadsAreOfTheRun(s, events, i);
  }
}
