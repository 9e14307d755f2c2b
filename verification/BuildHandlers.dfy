/** The handlers of the build protocol as the source runs them: handleConvertBook, the build it
    starts and failConversionAt, each a sequence of statements on the tables. The ghost trace
    shows that whatever a handler does is a run of the protocol, so the theorems about runs speak
    of this code; other requests may take steps wherever one statement ends. */
module BuildHandlers {
  import opened Options
  import opened BuildOutputs
  import opened BuildProtocol
  import opened BuildRaces

  lemma ClaimIgnoresKind(books: map<int, Book>, bid: int, k: Kind)
    requires bid in books
    ensures Claimable(books[bid := books[bid].(buildKind := k)], bid) <==> Claimable(books, bid)
  {
    var after := books[bid := books[bid].(buildKind := k)];
    assert forall b :: b in books && b != bid ==> after[b] == books[b];
  }

  /** One credit more spent on the pass of a project. */
  function Spent(passes: map<int, Pass>, project: int): map<int, Pass>
    requires project in passes
  {
    passes[project := passes[project].(used := passes[project].used + 1)]
  }

  predicate HasPass(passes: map<int, Pass>, project: Option<int>) {
    project.Some? && project.value in passes
  }

  /** A customer needs a pass, and for a final one with a credit left unless the gate is off; an
      admin needs neither. */
  predicate Allows(passes: map<int, Pass>, project: Option<int>, k: Kind, admin: bool, gateOff: bool, refuse: bool) {
    && !refuse
    && (admin || (project.Some? && project.value in passes
                  && (k == Proof || gateOff
                      || passes[project.value].used < passes[project.value].included + passes[project.value].extra)))
  }

  /** Neither the book nor any other of its project is being built. */
  predicate NothingInFlight(books: map<int, Book>, bid: int)
    requires bid in books
  {
    forall b :: b in books && (b == bid || (books[b].project.Some? && books[b].project == books[bid].project)) ==>
      books[b].status != Converting
  }

  /** With nothing between them, the advisory check and the claim agree for a book of a project. */
  lemma ClaimIsCount(books: map<int, Book>, bid: int)
    requires bid in books && books[bid].project.Some?
    ensures Claimable(books, bid) <==> !BuildInFlight(books, books[bid].project.value)
  {
  }

  class Factory {
    var books: map<int, Book>
    var passes: map<int, Pass>
    var ledger: seq<LedgerRow>
    var outputs: seq<Output>
    var reqs: seq<Req>
    ghost var start: State
    ghost var trace: seq<Event>

    function Now(): State
      reads this
    {
      State(books, passes, ledger, outputs, reqs)
    }

    ghost predicate Valid()
      reads this
    {
      Now() == Run(start, trace)
    }

    /** Records that the tables have just made this step. */
    method Log(was: State, e: Event)
      requires was == Run(start, trace)
      requires var t := Step(was, e);
        books == t.books && passes == t.passes && ledger == t.ledger && outputs == t.outputs
      modifies this`reqs, this`trace
      ensures Valid() && trace == old(trace) + [e] && old(trace) <= trace
      ensures reqs == Step(was, e).reqs && Now() == Step(was, e)
    {
      RunSnoc(start, trace, e);
      reqs := Step(was, e).reqs;
      trace := trace + [e];
    }

    // ----- queries ----------------------------------------------------------------------------

    method ClaimBookForBuild(bid: int) returns (rows: nat)
      requires bid in books
      modifies this`books
      ensures rows == (if Claimable(old(books), bid) then 1 else 0)
      ensures books == if Claimable(old(books), bid) then old(books)[bid := old(books)[bid].(status := Converting)]
                       else old(books)
    {
      if Claimable(books, bid) {
        books := books[bid := books[bid].(status := Converting)];
        return 1;
      }
      return 0;
    }

    method UpdateBookStatus(bid: int, status: Status)
      requires bid in books
      modifies this`books
      ensures books == old(books)[bid := old(books)[bid].(status := status)]
    {
      books := books[bid := books[bid].(status := status)];
    }

    method ReservePassBuildCredit(project: int) returns (rows: nat)
      requires project in passes
      modifies this`passes
      ensures rows == (if CreditLeft(old(passes)[project]) then 1 else 0)
      ensures passes == if rows == 1 then Spent(old(passes), project) else old(passes)
    {
      var p := passes[project];
      if p.used < p.included + p.extra {
        passes := passes[project := p.(used := p.used + 1)];
        return 1;
      }
      return 0;
    }

    // ----- POST /api/books/{id}/convert -------------------------------------------------------

    method Begin(bid: int, format: Format, kind: Kind, admin: bool) returns (k: Kind, i: nat)
      requires Valid() && bid in books
      modifies this`reqs, this`trace
      ensures Valid() && old(trace) <= trace && i == |old(reqs)| && |reqs| == i + 1 && At(Now(), i, Access)
      ensures k == if format == Epub then Proof else kind
      ensures reqs[i] == Req(bid, format, k, admin, books[bid].project, books[bid].status, false, Access,
                             0, 0, 0, 0, None, None, false)
    {
      k := if format == Epub then Proof else kind;
      i := |reqs|;
      Log(Now(), EBegin(bid, format, kind, admin));
    }

    /** requirePassAccess and the early 402. `refuse` and `gateOff` come from parts of the request
        and of the settings that are not part of this model. */
    method RequirePassAccess(bid: int, k: Kind, admin: bool, gateOff: bool, refuse: bool, i: nat)
      returns (allowed: bool, hasPass: bool)
      requires Valid() && At(Now(), i, Access) && bid in books
      requires reqs[i].book == bid && reqs[i].kind == k && reqs[i].admin == admin && !reqs[i].hasPass && !reqs[i].fault
      requires reqs[i].project == books[bid].project
      modifies this`reqs, this`trace
      ensures Valid() && old(trace) <= trace && |reqs| == |old(reqs)|
      ensures hasPass <==> HasPass(passes, books[bid].project)
      ensures allowed <==> Allows(passes, books[bid].project, k, admin, gateOff, refuse)
      ensures reqs[i] == old(reqs)[i].(hasPass := allowed && hasPass,
        pc := if !allowed then Done(Refused) else if books[bid].project.Some? then CountBuilds else RecordKind)
    {
      var book := books[bid];
      allowed, hasPass := false, false;
      Log(Now(), EAccess(i, gateOff, refuse, true));
      if book.project.None? {
        allowed := admin && !refuse;
        return;
      }
      hasPass := book.project.value in passes;
      if refuse || (!hasPass && !admin) {
        return;
      }
      if k == Final && hasPass && !admin && !gateOff && CreditsRemaining(passes[book.project.value]) <= 0 {
        return;
      }
      allowed := true;
    }

    /** The advisory one-build-in-flight check. */
    method CountConverting(bid: int, i: nat) returns (free: bool)
      requires Valid() && At(Now(), i, CountBuilds) && reqs[i].book == bid
      requires books[bid].project.Some? && reqs[i].project == books[bid].project
      modifies this`reqs, this`trace
      ensures Valid() && old(trace) <= trace && |reqs| == |old(reqs)|
      ensures free <==> !BuildInFlight(books, books[bid].project.value)
      ensures reqs[i] == old(reqs)[i].(pc := if free then RecordKind else Done(Refused))
    {
      Log(Now(), ECountBuilds(i, false, true));
      free := !BuildInFlight(books, books[bid].project.value);
    }

    /** handleConvertBook, up to starting the build, when no other request steps in between: it
        starts exactly when access is allowed and the book can be claimed, a final of a project with
        a pass is then charged, and a refused request costs nothing. */
    method HandleConvertBook(bid: int, format: Format, kind: Kind, admin: bool, gateOff: bool, refuse: bool)
      returns (started: bool, i: nat)
      requires Valid() && bid in books
      modifies this
      ensures Valid() && start == old(start) && old(trace) <= trace
      ensures i == |old(reqs)| && |reqs| == i + 1 && outputs == old(outputs)
      ensures var k, project := if format == Epub then Proof else kind, old(books)[bid].project;
        && (started <==> Allows(old(passes), project, k, admin, gateOff, refuse) && NothingInFlight(old(books), bid))
        && reqs[i].pc == (if started then Typeset else Done(Refused))
        && reqs[i].book == bid && reqs[i].format == format && reqs[i].kind == k && reqs[i].project == project
        && (started ==> books == old(books)[bid := Book(project, Converting, k)])
        && Charged(old(passes), old(ledger), project, bid, started && k == Final && HasPass(old(passes), project))
      // Of a refused request only the kind can stay behind, on a book outside any project.
      ensures !started ==> KindMayDiffer(old(books), bid)
    {
      var k, allowed, hasPass, free;
      k, i := Begin(bid, format, kind, admin);
      allowed, hasPass := RequirePassAccess(bid, k, admin, gateOff, refuse, i);
      if !allowed {
        return false, i;
      }
      if books[bid].project.Some? {
        ClaimIsCount(books, bid);
        free := CountConverting(bid, i);
        if !free {
          return false, i;
        }
      }
      started := ClaimAndDebit(bid, k, admin, hasPass, gateOff, i);
    }

    ghost predicate KindMayDiffer(was: map<int, Book>, bid: int)
      reads this
      requires bid in was
    {
      || books == was
      || (bid in books && was[bid].project.None? && books == was[bid := was[bid].(buildKind := books[bid].buildKind)])
    }

    /** One credit spent with its ledger row, or neither. */
    ghost predicate Charged(passesBefore: map<int, Pass>, ledgerBefore: seq<LedgerRow>, project: Option<int>, bid: int,
                            debit: bool)
      reads this
      requires debit ==> HasPass(passesBefore, project)
    {
      if debit then
        && passes == Spent(passesBefore, project.value)
        && ledger == ledgerBefore + [LedgerRow(project.value, bid, -1, Build)]
      else passes == passesBefore && ledger == ledgerBefore
    }

    /** From the kind write to the claim and the debit; unclaim when the debit fails. */
    method ClaimAndDebit(bid: int, kind: Kind, admin: bool, hasPass: bool, gateOff: bool, i: nat)
      returns (started: bool)
      requires Valid() && At(Now(), i, RecordKind) && reqs[i].book == bid && reqs[i].hasPass == hasPass
      requires reqs[i].kind == kind && reqs[i].admin == admin && reqs[i].project == books[bid].project
      requires hasPass ==> HasPass(passes, books[bid].project)
      requires reqs[i].saved == books[bid].status
      modifies this
      ensures Valid() && start == old(start) && old(trace) <= trace && outputs == old(outputs)
      ensures |reqs| == |old(reqs)| && SameRequest(reqs[i], old(reqs)[i])
      ensures reqs[i].pc == if started then Typeset else Done(Refused)
      ensures started <==>
        Claimable(old(books), bid)
        && (hasPass && kind == Final && !admin && !gateOff ==> CreditLeft(old(passes)[old(books)[bid].project.value]))
      ensures var status := if started then Converting else old(books)[bid].status;
        books == old(books)[bid := Book(old(books)[bid].project, status, kind)]
      ensures Charged(old(passes), old(ledger), old(books)[bid].project, bid, started && hasPass && kind == Final)
    {
      var saved := books[bid].status;
      var claimed := RecordAndClaim(bid, kind, i);
      if !claimed {
        return false;
      }
      started := true;
      if hasPass && kind == Final {
        started := ReserveOrDebit(bid, books[bid].project.value, admin, gateOff, i);
        if !started {
          PutStatusBack(bid, saved, i);
        }
      }
    }

    static predicate SameRequest(r: Req, was: Req) {
      && r.book == was.book && r.format == was.format && r.kind == was.kind && r.project == was.project
      && r.saved == was.saved && r.hasPass == was.hasPass && r.admin == was.admin
    }

    method PutStatusBack(bid: int, saved: Status, i: nat)
      requires Valid() && At(Now(), i, Unclaim) && reqs[i].book == bid && reqs[i].saved == saved
      modifies this`books, this`reqs, this`trace
      ensures Valid() && old(trace) <= trace && |reqs| == |old(reqs)|
      ensures reqs[i] == old(reqs)[i].(pc := Done(Refused))
      ensures books == old(books)[bid := old(books)[bid].(status := saved)]
    {
      var was := Now();
      UpdateBookStatus(bid, saved);
      Log(was, EStatement(i, true));
    }

    method RecordAndClaim(bid: int, kind: Kind, i: nat) returns (claimed: bool)
      requires Valid() && At(Now(), i, RecordKind) && reqs[i].book == bid && reqs[i].kind == kind
      modifies this`books, this`reqs, this`trace
      ensures Valid() && old(trace) <= trace && |reqs| == |old(reqs)|
      ensures claimed <==> Claimable(old(books), bid)
      ensures var status := if claimed then Converting else old(books)[bid].status;
        books == old(books)[bid := Book(old(books)[bid].project, status, kind)]
      ensures reqs[i] == old(reqs)[i].(
        pc := if !claimed then Done(Refused) else if old(reqs)[i].hasPass && kind == Final then Debit else Typeset)
    {
      ClaimIgnoresKind(books, bid, kind);
      RecordBuildKind(bid, kind, i);
      claimed := ClaimLogged(bid, i);
    }

    method RecordBuildKind(bid: int, kind: Kind, i: nat)
      requires Valid() && At(Now(), i, RecordKind) && reqs[i].book == bid && reqs[i].kind == kind
      modifies this`books, this`reqs, this`trace
      ensures Valid() && old(trace) <= trace && |reqs| == |old(reqs)|
      ensures books == old(books)[bid := old(books)[bid].(buildKind := kind)]
      ensures reqs[i] == old(reqs)[i].(pc := Claim)
    {
      var was := Now();
      books := books[bid := books[bid].(buildKind := kind)];
      Log(was, EStatement(i, true));
    }

    method ClaimLogged(bid: int, i: nat) returns (claimed: bool)
      requires Valid() && At(Now(), i, Claim) && reqs[i].book == bid
      modifies this`books, this`reqs, this`trace
      ensures Valid() && old(trace) <= trace && |reqs| == |old(reqs)|
      ensures claimed <==> Claimable(old(books), bid)
      ensures books == if claimed then old(books)[bid := old(books)[bid].(status := Converting)] else old(books)
      ensures reqs[i] == old(reqs)[i].(
        pc := if !claimed then Done(Refused)
              else if old(reqs)[i].hasPass && old(reqs)[i].kind == Final then Debit else Typeset)
    {
      var was := Now();
      var rows := ClaimBookForBuild(bid);
      Log(was, EStatement(i, true));
      claimed := rows > 0;
    }

    /** reserveBuildCredit, or debitBuildCredit for admins and while the gate is off. */
    method ReserveOrDebit(bid: int, project: int, admin: bool, gateOff: bool, i: nat) returns (debited: bool)
      requires Valid() && At(Now(), i, Debit) && reqs[i].book == bid && reqs[i].project == Some(project)
      requires reqs[i].admin == admin && project in passes
      modifies this`passes, this`ledger, this`reqs, this`trace
      ensures Valid() && old(trace) <= trace && |reqs| == |old(reqs)| && SameRequest(reqs[i], old(reqs)[i])
      ensures reqs[i].pc == if debited then Typeset else Unclaim
      ensures debited <==> admin || gateOff || CreditLeft(old(passes)[project])
      ensures debited ==> ledger == old(ledger) + [LedgerRow(project, bid, -1, Build)]
      ensures debited ==> passes == Spent(old(passes), project)
      ensures !debited ==> ledger == old(ledger) && passes == old(passes)
    {
      debited := SpendCredit(bid, project, admin, gateOff, i);
      if debited {
        RecordDebit(bid, project, i);
      }
    }

    method SpendCredit(bid: int, project: int, admin: bool, gateOff: bool, i: nat) returns (spent: bool)
      requires Valid() && At(Now(), i, Debit) && reqs[i].book == bid && reqs[i].project == Some(project)
      requires reqs[i].admin == admin && project in passes
      modifies this`passes, this`reqs, this`trace
      ensures Valid() && old(trace) <= trace && |reqs| == |old(reqs)| && SameRequest(reqs[i], old(reqs)[i])
      ensures reqs[i].pc == if spent then DebitRow else Unclaim
      ensures spent <==> admin || gateOff || CreditLeft(old(passes)[project])
      ensures passes == if spent then Spent(old(passes), project) else old(passes)
    {
      var was := Now();
      var rows := 1;
      if !admin && !gateOff {
        rows := ReservePassBuildCredit(project);
      } else {
        passes := passes[project := passes[project].(used := passes[project].used + 1)];
      }
      Log(was, EDebit(i, gateOff, true));
      spent := rows > 0;
    }

    method RecordDebit(bid: int, project: int, i: nat)
      requires Valid() && At(Now(), i, DebitRow) && reqs[i].book == bid && reqs[i].project == Some(project)
      modifies this`ledger, this`reqs, this`trace
      ensures Valid() && old(trace) <= trace && |reqs| == |old(reqs)| && SameRequest(reqs[i], old(reqs)[i])
      ensures reqs[i].pc == Typeset
      ensures ledger == old(ledger) + [LedgerRow(project, bid, -1, Build)]
    {
      var was := Now();
      ledger := ledger + [LedgerRow(project, bid, -1, Build)];
      Log(was, EStatement(i, true));
    }

    /** refundBuildCredit */
    method RefundBuildCredit(project: int, bid: int, i: nat)
      requires Valid() && At(Now(), i, Refund) && reqs[i].book == bid && reqs[i].project == Some(project)
      requires project in passes
      modifies this`passes, this`ledger, this`reqs, this`trace
      ensures Valid() && old(trace) <= trace && |reqs| == |old(reqs)| && reqs[i].pc == Done(BuildFailed)
      ensures passes == old(passes)[project := Decremented(old(passes)[project])]
      ensures ledger == old(ledger) + [LedgerRow(project, bid, 1, BuildFailedRefund)]
    {
      DecrementUsed(bid, project, i);
      RecordRefund(bid, project, i);
    }

    method DecrementUsed(bid: int, project: int, i: nat)
      requires Valid() && At(Now(), i, Refund) && reqs[i].book == bid && reqs[i].project == Some(project)
      requires project in passes
      modifies this`passes, this`reqs, this`trace
      ensures Valid() && old(trace) <= trace && |reqs| == |old(reqs)| && SameRequest(reqs[i], old(reqs)[i])
      ensures reqs[i].pc == RefundRow
      ensures passes == old(passes)[project := Decremented(old(passes)[project])]
    {
      var was := Now();
      passes := passes[project := Decremented(passes[project])];
      Log(was, EStatement(i, true));
    }

    method RecordRefund(bid: int, project: int, i: nat)
      requires Valid() && At(Now(), i, RefundRow) && reqs[i].book == bid && reqs[i].project == Some(project)
      modifies this`ledger, this`reqs, this`trace
      ensures Valid() && old(trace) <= trace && |reqs| == |old(reqs)| && reqs[i].pc == Done(BuildFailed)
      ensures ledger == old(ledger) + [LedgerRow(project, bid, 1, BuildFailedRefund)]
    {
      var was := Now();
      ledger := ledger + [LedgerRow(project, bid, 1, BuildFailedRefund)];
      Log(was, EStatement(i, true));
    }

    /** The refund of a failed build goes by what the book's row says: none for a proof or without a
        pass, one credit (never below zero) and one ledger row otherwise. */
    ghost predicate Refunded(passesBefore: map<int, Pass>, ledgerBefore: seq<LedgerRow>, book: Book, bid: int)
      reads this
    {
      if book.buildKind == Final && HasPass(passesBefore, book.project) then
        && (var was := passesBefore[book.project.value];
            passes == passesBefore[book.project.value := was.(used := if was.used > 0 then was.used - 1 else 0)])
        && ledger == ledgerBefore + [LedgerRow(book.project.value, bid, 1, BuildFailedRefund)]
      else passes == passesBefore && ledger == ledgerBefore
    }

    /** failConversionAt: mark the build failed, re-read the row, refund unless it says proof. */
    method FailConversion(bid: int, i: nat)
      requires Valid() && At(Now(), i, MarkFailed) && reqs[i].book == bid && reqs[i].project == books[bid].project
      modifies this
      ensures Valid() && start == old(start) && old(trace) <= trace && |reqs| == |old(reqs)|
      ensures reqs[i].pc == Done(BuildFailed)
      ensures books == old(books)[bid := old(books)[bid].(status := Failed)] && outputs == old(outputs)
      ensures Refunded(old(passes), old(ledger), old(books)[bid], bid)
    {
      MarkBuildFailed(bid, i);
      var ref := ReadBack(bid, i);
      if ref.project.None? || ref.buildKind == Proof {
        return;
      }
      LookUpPass(i);
      if ref.project.value in passes {
        RefundBuildCredit(ref.project.value, bid, i);
      }
    }

    method MarkBuildFailed(bid: int, i: nat)
      requires Valid() && At(Now(), i, MarkFailed) && reqs[i].book == bid
      modifies this`books, this`reqs, this`trace
      ensures Valid() && old(trace) <= trace && |reqs| == |old(reqs)|
      ensures reqs[i] == old(reqs)[i].(pc := Reread)
      ensures books == old(books)[bid := old(books)[bid].(status := Failed)]
    {
      var was := Now();
      UpdateBookStatus(bid, Failed);
      Log(was, EStatement(i, true));
    }

    method ReadBack(bid: int, i: nat) returns (ref: Book)
      requires Valid() && At(Now(), i, Reread) && reqs[i].book == bid
      modifies this`reqs, this`trace
      ensures Valid() && old(trace) <= trace && |reqs| == |old(reqs)| && ref == books[bid]
      ensures SameRequest(reqs[i], old(reqs)[i])
      ensures reqs[i].pc == if ref.project.None? || ref.buildKind == Proof then Done(BuildFailed) else LookupPass
    {
      ref := books[bid];
      Log(Now(), EStatement(i, true));
    }

    method LookUpPass(i: nat)
      requires Valid() && At(Now(), i, LookupPass)
      modifies this`reqs, this`trace
      ensures Valid() && old(trace) <= trace && |reqs| == |old(reqs)|
      ensures var found := HasPass(passes, old(reqs)[i].project);
        reqs[i] == old(reqs)[i].(found := Some(found), pc := if found then Refund else Done(BuildFailed))
    {
      Log(Now(), EStatement(i, true));
    }

    // ----- the build ------------------------------------------------------------------------------

    static function WithPdf(outs: seq<Output>, bid: int, kind: Kind, i: nat): seq<Output> {
      var all := outs + [Output(bid, Pdf, kind, i)];
      if kind == Proof then Prune(all, bid, Pdf, {Proof}, PROOF_OUTPUTS_KEPT) else all
    }

    /** What the EPUB runner leaves: a failed one may have stored its row, unpruned. */
    static function WithEpub(outs: seq<Output>, bid: int, kind: Kind, i: nat, stored: bool, ok: bool): seq<Output> {
      var all := if stored then outs + [Output(bid, Epub, kind, i)] else outs;
      if ok then Prune(all, bid, Epub, {Proof, Final}, EPUB_OUTPUTS_KEPT) else all
    }

    // The EPUBs of a book after its runner: with the new one, and after a success the ten newest.
    static predicate EpubsAfter(before: seq<Output>, after: seq<Output>, bid: int, kind: Kind, i: nat, stored: bool,
                                ok: bool)
    {
      var all := Epubs(before, bid) + if stored then [Output(bid, Epub, kind, i)] else [];
      Epubs(after, bid) == if ok then Newest(10, all) else all
    }

    // The other rows of a book after a PDF of that kind: the five newest proofs, or one final more.
    static predicate PdfsAfter(before: seq<Output>, after: seq<Output>, bid: int, kind: Kind, i: nat) {
      && ProofPdfs(after, bid) == (if kind == Final then ProofPdfs(before, bid)
                                   else Newest(5, ProofPdfs(before, bid) + [Output(bid, Pdf, Proof, i)]))
      && OtherRows(after, bid) == OtherRows(before, bid) + if kind == Final then [Output(bid, Pdf, Final, i)] else []
    }

    static lemma WithPdfSays(outs: seq<Output>, bid: int, kind: Kind, i: nat)
      ensures PdfsAfter(outs, WithPdf(outs, bid, kind, i), bid, kind, i)
      ensures Epubs(WithPdf(outs, bid, kind, i), bid) == Epubs(outs, bid)
    {
      RowAdded(outs, bid, Output(bid, Pdf, kind, i));
      ProofsPruned(outs + [Output(bid, Pdf, kind, i)], bid);
    }

    static lemma WithEpubSays(outs: seq<Output>, bid: int, kind: Kind, i: nat, stored: bool, ok: bool)
      ensures var after := WithEpub(outs, bid, kind, i, stored, ok);
        && EpubsAfter(outs, after, bid, kind, i, stored, ok)
        && ProofPdfs(after, bid) == ProofPdfs(outs, bid) && OtherRows(after, bid) == OtherRows(outs, bid)
    {
      RowAdded(outs, bid, Output(bid, Epub, kind, i));
      EpubsPruned(if stored then outs + [Output(bid, Epub, kind, i)] else outs, bid);
    }

    static lemma BuildSays(outs: seq<Output>, bid: int, format: Format, kind: Kind, stored: bool, ok: bool, i: nat)
      ensures var pdf := WithPdf(outs, bid, kind, i);
        var after := if format == Both then WithEpub(pdf, bid, kind, i, stored, ok) else pdf;
        && PdfsAfter(outs, after, bid, kind, i)
        && EpubsAfter(outs, after, bid, kind, i, format == Both && stored, format == Both && ok)
    {
      WithPdfSays(outs, bid, kind, i);
      WithEpubSays(WithPdf(outs, bid, kind, i), bid, kind, i, stored, ok);
    }

    /** runConversion with finalizeBuild, for a pdf or both build. `typeset` is what pandoc, Typst
        and the output row came to; `epubStored` and `epubOk` are the EPUB runner's two results. The
        PDF alone decides: a both build whose EPUB fails is delivered and keeps its charge. */
    method RunConversion(bid: int, format: Format, kind: Kind, typeset: bool, epubStored: bool, epubOk: bool, i: nat)
      requires Valid() && At(Now(), i, Typeset) && reqs[i].book == bid && reqs[i].project == books[bid].project
      requires format != Epub && reqs[i].format == format && reqs[i].kind == kind && (epubOk ==> epubStored)
      modifies this
      ensures Valid() && start == old(start) && old(trace) <= trace && |reqs| == |old(reqs)|
      ensures reqs[i].pc == Done(if typeset then Delivered else BuildFailed)
      ensures books == old(books)[bid := old(books)[bid].(status := if typeset then Ready else Failed)]
      ensures if typeset then passes == old(passes) && ledger == old(ledger)
              else Refunded(old(passes), old(ledger), old(books)[bid], bid)
      ensures outputs ==
        if !typeset then old(outputs)
        else if format == Both then WithEpub(WithPdf(old(outputs), bid, kind, i), bid, kind, i, epubStored, epubOk)
        else WithPdf(old(outputs), bid, kind, i)
      ensures typeset ==> PdfsAfter(old(outputs), outputs, bid, kind, i)
      ensures typeset ==> var both := format == Both;
        EpubsAfter(old(outputs), outputs, bid, kind, i, both && epubStored, both && epubOk)
    {
      BuildSays(outputs, bid, format, kind, epubStored, epubOk, i);
      if !typeset {
        TypesetFails(i);
        FailConversion(bid, i);
      } else {
        StorePdf(bid, format, kind, i);
        if format == Both {
          RunEpub(bid, kind, epubStored, epubOk, i);
        }
        MarkBookReady(bid, i);
      }
    }

    method TypesetFails(i: nat)
      requires Valid() && At(Now(), i, Typeset) && reqs[i].format != Epub
      modifies this`reqs, this`trace
      ensures Valid() && old(trace) <= trace && |reqs| == |old(reqs)|
      ensures reqs[i] == old(reqs)[i].(pc := MarkFailed)
    {
      Log(Now(), EStatement(i, false));
    }

    /** CreateBookOutput, and the pruning of old proofs. */
    method StorePdf(bid: int, format: Format, kind: Kind, i: nat)
      requires Valid() && At(Now(), i, Typeset) && reqs[i].book == bid
      requires format != Epub && reqs[i].format == format && reqs[i].kind == kind
      modifies this`outputs, this`reqs, this`trace
      ensures Valid() && old(trace) <= trace && |reqs| == |old(reqs)|
      ensures reqs[i] == old(reqs)[i].(pc := if format == Both then EpubStage else MarkReady)
      ensures outputs == WithPdf(old(outputs), bid, kind, i)
    {
      InsertPdf(bid, kind, i);
      PruneOldProofs(bid, kind, i);
    }

    method InsertPdf(bid: int, kind: Kind, i: nat)
      requires Valid() && At(Now(), i, Typeset) && reqs[i].book == bid && reqs[i].format != Epub && reqs[i].kind == kind
      modifies this`outputs, this`reqs, this`trace
      ensures Valid() && old(trace) <= trace && |reqs| == |old(reqs)|
      ensures reqs[i] == old(reqs)[i].(pc := PruneProofs) && outputs == old(outputs) + [Output(bid, Pdf, kind, i)]
    {
      var was := Now();
      outputs := outputs + [Output(bid, Pdf, kind, i)];
      Log(was, EStatement(i, true));
    }

    method PruneOldProofs(bid: int, kind: Kind, i: nat)
      requires Valid() && At(Now(), i, PruneProofs) && reqs[i].book == bid && reqs[i].kind == kind
      modifies this`outputs, this`reqs, this`trace
      ensures Valid() && old(trace) <= trace && |reqs| == |old(reqs)|
      ensures reqs[i] == old(reqs)[i].(pc := if old(reqs)[i].format == Both then EpubStage else MarkReady)
      ensures outputs ==
        if kind == Proof then Prune(old(outputs), bid, Pdf, {Proof}, PROOF_OUTPUTS_KEPT) else old(outputs)
    {
      var was := Now();
      if kind == Proof {
        outputs := Prune(outputs, bid, Pdf, {Proof}, PROOF_OUTPUTS_KEPT);
      }
      Log(was, EStatement(i, true));
    }

    /** The EPUB runner, and the pruning of old EPUBs when it succeeds. */
    method RunEpub(bid: int, kind: Kind, stored: bool, ok: bool, i: nat)
      requires Valid() && (At(Now(), i, EpubStage) || (At(Now(), i, Typeset) && reqs[i].format == Epub))
      requires reqs[i].book == bid && reqs[i].kind == kind && (ok ==> stored)
      modifies this`outputs, this`reqs, this`trace
      ensures Valid() && old(trace) <= trace && |reqs| == |old(reqs)|
      ensures reqs[i] == old(reqs)[i].(pc := if ok || old(reqs)[i].format != Epub then MarkReady else MarkFailed)
      ensures outputs == WithEpub(old(outputs), bid, kind, i, stored, ok)
    {
      var was := Now();
      if stored {
        outputs := outputs + [Output(bid, Epub, kind, i)];
      }
      if ok {
        outputs := Prune(outputs, bid, Epub, {Proof, Final}, EPUB_OUTPUTS_KEPT);
      }
      Log(was, EEpub(i, stored, ok));
    }

    /** runEPUBBuild: delivered exactly when the runner succeeds. A failed one is refunded by what the
        row says, although no EPUB is ever charged. */
    method RunEpubBuild(bid: int, kind: Kind, stored: bool, ok: bool, i: nat)
      requires Valid() && At(Now(), i, Typeset) && reqs[i].book == bid && reqs[i].project == books[bid].project
      requires reqs[i].format == Epub && reqs[i].kind == kind && (ok ==> stored)
      modifies this
      ensures Valid() && start == old(start) && old(trace) <= trace && |reqs| == |old(reqs)|
      ensures reqs[i].pc == Done(if ok then Delivered else BuildFailed)
      ensures books == old(books)[bid := old(books)[bid].(status := if ok then Ready else Failed)]
      ensures outputs == WithEpub(old(outputs), bid, kind, i, stored, ok)
      ensures EpubsAfter(old(outputs), outputs, bid, kind, i, stored, ok)
      ensures ProofPdfs(outputs, bid) == ProofPdfs(old(outputs), bid)
      ensures OtherRows(outputs, bid) == OtherRows(old(outputs), bid)
      ensures if ok then passes == old(passes) && ledger == old(ledger)
              else Refunded(old(passes), old(ledger), old(books)[bid], bid)
    {
      WithEpubSays(outputs, bid, kind, i, stored, ok);
      RunEpub(bid, kind, stored, ok, i);
      if ok {
        MarkBookReady(bid, i);
      } else {
        FailConversion(bid, i);
      }
    }

    method MarkBookReady(bid: int, i: nat)
      requires Valid() && At(Now(), i, MarkReady) && reqs[i].book == bid
      modifies this`books, this`reqs, this`trace
      ensures Valid() && old(trace) <= trace && |reqs| == |old(reqs)| && reqs[i].pc == Done(Delivered)
      ensures books == old(books)[bid := old(books)[bid].(status := Ready)]
    {
      var was := Now();
      UpdateBookStatus(bid, Ready);
      Log(was, EStatement(i, true));
    }
  }
}
