/** The build and credit protocol: POST /api/books/{id}/convert, the background build it starts
    and the failure handler that may refund (srv/books.go, srv/passes.go, db/queries/passes.sql).

    Requests run concurrently. One connection serves the whole pool, so each SQL statement is
    one atomic step and steps of different requests interleave freely. A step's `ok` flag says
    whether the statement (or the tool behind it) succeeded. One step is two statements: EEpub both
    stores the EPUB's row, at the end of the runner, and prunes the book's older EPUBs. */
module BuildProtocol {
  import opened Options

  datatype Kind = Proof | Final
  datatype Format = Epub | Pdf | Both
  datatype Status = Uploaded | Converting | Ready | Failed

  datatype Book = Book(project: Option<int>, status: Status, buildKind: Kind)

  /** passes.project_id is unique, so a pass is named by its project. */
  datatype Pass = Pass(included: nat, extra: nat, used: nat)

  datatype Reason = Build | BuildFailedRefund
  datatype LedgerRow = LedgerRow(project: int, book: int, delta: int, reason: Reason)

  /** A row of book_outputs. `request` is bookkeeping: the request whose build stored it. */
  datatype Output = Output(book: int, format: Format, kind: Kind, request: nat)

  datatype Outcome = Refused | Delivered | BuildFailed | Unrecorded | Killed

  /** Where a request is: each value names the statement it will execute next. */
  datatype PC =
    | Access | CountBuilds | RecordKind | Claim | Debit | DebitRow | Unclaim      // handleConvertBook
    | Typeset | PruneProofs | EpubStage | MarkReady                              // the build
    | MarkFailed | Reread | LookupPass | Refund | RefundRow                      // failConversionAt
    | Done(outcome: Outcome)

  /** One convert request with the values it has read so far. The counters and `fault` record
      what it has done; no step reads them. */
  datatype Req = Req(
    book: int, format: Format, kind: Kind, admin: bool,
    project: Option<int>,     // book.ProjectID as read
    saved: Status,            // book.Status as read, written back by unclaim
    hasPass: bool,            // pass != nil
    pc: PC,
    debits: nat, debitRows: nat, refunds: nat, refundRows: nat,
    reread: Option<Kind>,     // the build_kind the failure handler read back
    found: Option<bool>,      // whether it then found a pass
    fault: bool)              // some statement of this request failed

  datatype State = State(
    books: map<int, Book>,
    passes: map<int, Pass>,
    ledger: seq<LedgerRow>,
    outputs: seq<Output>,
    reqs: seq<Req>)

  const PROOF_OUTPUTS_KEPT := 5
  const EPUB_OUTPUTS_KEPT := 10

  // ----- the queries ------------------------------------------------------------------------

  /** passCreditsRemaining */
  function CreditsRemaining(p: Pass): nat {
    if p.included + p.extra < p.used then 0 else p.included + p.extra - p.used
  }

  /** CountConvertingBooksByProject > 0 */
  predicate BuildInFlight(books: map<int, Book>, project: int) {
    exists b :: b in books && books[b].project == Some(project) && books[b].status == Converting
  }

  /** The WHERE clause of ClaimBookForBuild. */
  predicate Claimable(books: map<int, Book>, bid: int)
    requires bid in books
  {
    && books[bid].status != Converting
    && forall b :: b in books && b != bid && books[b].project.Some? && books[b].project == books[bid].project
         ==> books[b].status != Converting
  }

  /** The WHERE clause of ReservePassBuildCredit. */
  predicate CreditLeft(p: Pass) {
    p.used < p.included + p.extra
  }

  /** DecrementPassBuildsUsed, clamped at zero. */
  function Decremented(p: Pass): Pass {
    p.(used := if p.used > 0 then p.used - 1 else 0)
  }

  predicate Prunable(o: Output, book: int, format: Format, kinds: set<Kind>) {
    o.book == book && o.format == format && o.kind in kinds
  }

  /** PruneBookOutputsByKind / PruneBookOutputs: rows in insertion order, newest `keep` kept. */
  function Prune(outs: seq<Output>, book: int, format: Format, kinds: set<Kind>, keep: nat): seq<Output> {
    if outs == [] then []
    else
      var last := outs[|outs| - 1];
      var front := outs[..|outs| - 1];
      if !Prunable(last, book, format, kinds) then Prune(front, book, format, kinds, keep) + [last]
      else if keep == 0 then Prune(front, book, format, kinds, 0)
      else Prune(front, book, format, kinds, keep - 1) + [last]
  }

  // ----- steps ------------------------------------------------------------------------------

  datatype Event =
    | EUpload(book: int, project: Option<int>)
    | ENewPass(passOf: int, included: nat)             // fulfilled, or attached to a project that has books
    | EGrant(passProject: int, builds: nat)            // admin grant or bought add-on
    | EBegin(bookId: int, format: Format, kind: Kind, admin: bool)
    | EAccess(i: nat, gateOff: bool, refuse: bool, ok: bool)
    | ECountBuilds(i: nat, refuse: bool, ok: bool)
    | EStatement(i: nat, ok: bool)                     // the statement named by the pc
    | EDebit(i: nat, gateOff: bool, ok: bool)
    | EEpub(i: nat, stored: bool, ok: bool)            // the EPUB runner: may store and still fail
    | ECrash                                           // the process dies; the database stays

  function SetReq(s: State, i: nat, r: Req): State
    requires i < |s.reqs|
  {
    s.(reqs := s.reqs[i := r])
  }

  function Goto(s: State, i: nat, pc: PC): State
    requires i < |s.reqs|
  {
    SetReq(s, i, s.reqs[i].(pc := pc))
  }

  /** A failed statement, followed by the error path. */
  function FaultTo(s: State, i: nat, pc: PC): State
    requires i < |s.reqs|
  {
    SetReq(s, i, s.reqs[i].(pc := pc, fault := true))
  }

  function WithBook(s: State, b: int, book: Book): State {
    s.(books := s.books[b := book])
  }

  predicate At(s: State, i: nat, pc: PC) {
    i < |s.reqs| && s.reqs[i].pc == pc && s.reqs[i].book in s.books
  }

  function StepBegin(s: State, b: int, format: Format, kind: Kind, admin: bool): State {
    if b !in s.books then s
    else
      var k := if format == Epub then Proof else kind;
      s.(reqs := s.reqs + [Req(b, format, k, admin, s.books[b].project, s.books[b].status, false, Access,
                               0, 0, 0, 0, None, None, false)])
  }

  /** requirePassAccess and the checks that only read. `refuse` stands for the refusals this
      model does not look into (expired pass, proof rate, index add-on, ...). */
  function StepAccess(s: State, i: nat, gateOff: bool, refuse: bool, ok: bool): State
    requires At(s, i, Access)
  {
    var r := s.reqs[i];
    if refuse || (r.project.None? && !r.admin) then Goto(s, i, Done(Refused))
    else if r.project.None? then Goto(s, i, RecordKind)
    else
      var hasPass := ok && r.project.value in s.passes;
      if !hasPass && !r.admin then SetReq(s, i, r.(pc := Done(Refused), fault := !ok))
      else if r.kind == Final && hasPass && !r.admin && !gateOff && CreditsRemaining(s.passes[r.project.value]) == 0
      then Goto(s, i, Done(Refused))
      else SetReq(s, i, r.(pc := CountBuilds, hasPass := hasPass, fault := !ok))
  }

  function StepCountBuilds(s: State, i: nat, refuse: bool, ok: bool): State
    requires At(s, i, CountBuilds)
  {
    var r := s.reqs[i];
    if !ok then FaultTo(s, i, Done(Refused))
    else if refuse || (r.project.Some? && BuildInFlight(s.books, r.project.value)) then Goto(s, i, Done(Refused))
    else Goto(s, i, RecordKind)
  }

  function StepRecordKind(s: State, i: nat, ok: bool): State
    requires At(s, i, RecordKind)
  {
    var r := s.reqs[i];
    if !ok then FaultTo(s, i, Done(Refused))
    else Goto(WithBook(s, r.book, s.books[r.book].(buildKind := r.kind)), i, Claim)
  }

  function StepClaim(s: State, i: nat, ok: bool): State
    requires At(s, i, Claim)
  {
    var r := s.reqs[i];
    if !ok then FaultTo(s, i, Done(Refused))
    else if !Claimable(s.books, r.book) then Goto(s, i, Done(Refused))
    else Goto(WithBook(s, r.book, s.books[r.book].(status := Converting)), i,
              if r.hasPass && r.kind == Final then Debit else Typeset)
  }

  /** reserveBuildCredit for customers while the gate is on, debitBuildCredit otherwise. */
  function StepDebit(s: State, i: nat, gateOff: bool, ok: bool): State
    requires At(s, i, Debit)
  {
    var r := s.reqs[i];
    if !ok || r.project.None? || r.project.value !in s.passes then FaultTo(s, i, Unclaim)
    else
      var p := r.project.value;
      if !r.admin && !gateOff && !CreditLeft(s.passes[p]) then Goto(s, i, Unclaim)
      else SetReq(s.(passes := s.passes[p := s.passes[p].(used := s.passes[p].used + 1)]), i,
                  r.(pc := DebitRow, debits := r.debits + 1))
  }

  function StepDebitRow(s: State, i: nat, ok: bool): State
    requires At(s, i, DebitRow)
  {
    var r := s.reqs[i];
    if !ok || r.project.None? then FaultTo(s, i, Unclaim)
    else SetReq(s.(ledger := s.ledger + [LedgerRow(r.project.value, r.book, -1, Build)]), i,
                r.(pc := Typeset, debitRows := r.debitRows + 1))
  }

  function StepUnclaim(s: State, i: nat, ok: bool): State
    requires At(s, i, Unclaim)
  {
    var r := s.reqs[i];
    if !ok then FaultTo(s, i, Done(Refused))
    else Goto(WithBook(s, r.book, s.books[r.book].(status := r.saved)), i, Done(Refused))
  }

  /** pandoc, Typst and CreateBookOutput, for a pdf or both build. */
  function StepTypeset(s: State, i: nat, ok: bool): State
    requires At(s, i, Typeset) && s.reqs[i].format != Epub
  {
    var r := s.reqs[i];
    if !ok then Goto(s, i, MarkFailed)
    else Goto(s.(outputs := s.outputs + [Output(r.book, Pdf, r.kind, i)]), i, PruneProofs)
  }

  /** The EPUB runner: the whole of an epub build, the second half of a both build. */
  function StepEpub(s: State, i: nat, stored: bool, ok: bool): State
    requires At(s, i, EpubStage) || (At(s, i, Typeset) && s.reqs[i].format == Epub)
  {
    var r := s.reqs[i];
    var outs := if stored then s.outputs + [Output(r.book, Epub, r.kind, i)] else s.outputs;
    var pruned := if ok then Prune(outs, r.book, Epub, {Proof, Final}, EPUB_OUTPUTS_KEPT) else outs;
    Goto(s.(outputs := pruned), i, if ok || r.format != Epub then MarkReady else MarkFailed)
  }

  function StepPrune(s: State, i: nat, ok: bool): State
    requires At(s, i, PruneProofs)
  {
    var r := s.reqs[i];
    var outs := if ok && r.kind == Proof then Prune(s.outputs, r.book, Pdf, {Proof}, PROOF_OUTPUTS_KEPT)
                else s.outputs;
    Goto(s.(outputs := outs), i, if r.format == Both then EpubStage else MarkReady)
  }

  function StepMarkReady(s: State, i: nat, ok: bool): State
    requires At(s, i, MarkReady)
  {
    var r := s.reqs[i];
    if ok then Goto(WithBook(s, r.book, s.books[r.book].(status := Ready)), i, Done(Delivered))
    else FaultTo(s, i, if r.format == Epub then Done(Unrecorded) else MarkFailed)
  }

  function StepMarkFailed(s: State, i: nat, ok: bool): State
    requires At(s, i, MarkFailed)
  {
    var r := s.reqs[i];
    if ok then Goto(WithBook(s, r.book, s.books[r.book].(status := Failed)), i, Reread)
    else FaultTo(s, i, Reread)
  }

  function StepReread(s: State, i: nat, ok: bool): State
    requires At(s, i, Reread)
  {
    var r := s.reqs[i];
    var k := s.books[r.book].buildKind;
    if !ok then FaultTo(s, i, Done(BuildFailed))
    else SetReq(s, i, r.(reread := Some(k),
                         pc := if s.books[r.book].project.None? || k == Proof then Done(BuildFailed) else LookupPass))
  }

  function StepLookupPass(s: State, i: nat, ok: bool): State
    requires At(s, i, LookupPass)
  {
    var r := s.reqs[i];
    if !ok then FaultTo(s, i, Done(BuildFailed))
    else
      var found := r.project.Some? && r.project.value in s.passes;
      SetReq(s, i, r.(found := Some(found), pc := if found then Refund else Done(BuildFailed)))
  }

  function StepRefund(s: State, i: nat, ok: bool): State
    requires At(s, i, Refund)
  {
    var r := s.reqs[i];
    if !ok || r.project.None? || r.project.value !in s.passes then FaultTo(s, i, Done(BuildFailed))
    else SetReq(s.(passes := s.passes[r.project.value := Decremented(s.passes[r.project.value])]), i,
                r.(pc := RefundRow, refunds := r.refunds + 1))
  }

  function StepRefundRow(s: State, i: nat, ok: bool): State
    requires At(s, i, RefundRow)
  {
    var r := s.reqs[i];
    if !ok || r.project.None? then FaultTo(s, i, Done(BuildFailed))
    else SetReq(s.(ledger := s.ledger + [LedgerRow(r.project.value, r.book, 1, BuildFailedRefund)]), i,
                r.(pc := Done(BuildFailed), refundRows := r.refundRows + 1))
  }

  function StepStatement(s: State, i: nat, ok: bool): State
    requires i < |s.reqs| && s.reqs[i].book in s.books
  {
    match s.reqs[i].pc
    case RecordKind => StepRecordKind(s, i, ok)
    case Claim => StepClaim(s, i, ok)
    case DebitRow => StepDebitRow(s, i, ok)
    case Unclaim => StepUnclaim(s, i, ok)
    case Typeset => if s.reqs[i].format != Epub then StepTypeset(s, i, ok) else s
    case PruneProofs => StepPrune(s, i, ok)
    case MarkReady => StepMarkReady(s, i, ok)
    case MarkFailed => StepMarkFailed(s, i, ok)
    case Reread => StepReread(s, i, ok)
    case LookupPass => StepLookupPass(s, i, ok)
    case Refund => StepRefund(s, i, ok)
    case RefundRow => StepRefundRow(s, i, ok)
    case _ => s
  }

  function Crashed(r: Req): Req {
    if r.pc.Done? then r else r.(pc := Done(Killed))
  }

  /** An event that is not possible in s changes nothing. */
  function Step(s: State, e: Event): State {
    match e
    case EUpload(b, p) => if b in s.books then s else WithBook(s, b, Book(p, Uploaded, Final))
    case ENewPass(p, included) =>
      if p in s.passes then s else s.(passes := s.passes[p := Pass(included, 0, 0)])
    case EGrant(p, n) =>
      if p !in s.passes then s else s.(passes := s.passes[p := s.passes[p].(extra := s.passes[p].extra + n)])
    case EBegin(b, f, k, a) => StepBegin(s, b, f, k, a)
    case EAccess(i, g, refuse, ok) => if At(s, i, Access) then StepAccess(s, i, g, refuse, ok) else s
    case ECountBuilds(i, refuse, ok) => if At(s, i, CountBuilds) then StepCountBuilds(s, i, refuse, ok) else s
    case EStatement(i, ok) =>
      if i < |s.reqs| && s.reqs[i].book in s.books then StepStatement(s, i, ok) else s
    case EDebit(i, g, ok) => if At(s, i, Debit) then StepDebit(s, i, g, ok) else s
    case EEpub(i, stored, ok) =>
      if (stored || !ok) && (At(s, i, EpubStage) || (At(s, i, Typeset) && s.reqs[i].format == Epub))
      then StepEpub(s, i, stored, ok) else s
    case ECrash => s.(reqs := seq(|s.reqs|, i requires 0 <= i < |s.reqs| => Crashed(s.reqs[i])))
  }

  function Run(s: State, events: seq<Event>): State {
    if events == [] then s else Step(Run(s, events[..|events| - 1]), events[|events| - 1])
  }

  /** The database before any convert request of this process: no build is in flight, and each
      used count is whatever earlier work left. */
  predicate Start(s: State) {
    && s.reqs == [] && s.ledger == []
    && (forall b, c | b in s.books && c in s.books && b != c && s.books[b].project.Some? ::
          s.books[b].project == s.books[c].project && s.books[b].status == Converting
          ==> s.books[c].status != Converting)
  }
}
