/** Interleavings that the hypotheses of the credit theorems shut out. Each is a run of a fresh
    database with one book, on project 5 with a pass of one credit. */
module BuildRaces {
  import opened Options
  import opened BuildProtocol
  import opened BuildSafety
  import opened BuildCredits

  lemma RunSnoc(s: State, events: seq<Event>, e: Event)
    ensures Run(s, events + [e]) == Step(Run(s, events), e)
  {
    assert (events + [e])[..|events|] == events;
  }

  lemma {:induction false} RunConcat(s: State, xs: seq<Event>, ys: seq<Event>)
    ensures Run(s, xs + ys) == Run(Run(s, xs), ys)
  {
    if ys == [] {
      assert xs + ys == xs;
    } else {
      var y, front := ys[|ys| - 1], ys[..|ys| - 1];
      assert xs + ys == (xs + front) + [y];
      RunSnoc(s, xs + front, y);
      RunConcat(s, xs, front);
    }
  }

  function OneBook(status: Status, kind: Kind, used: nat, ledger: seq<LedgerRow>, reqs: seq<Req>): State {
    State(map[1 := Book(Some(5), status, kind)], map[5 := Pass(1, 0, used)], ledger, [], reqs)
  }

  function Fresh(): State {
    OneBook(Uploaded, Final, 0, [], [])
  }

  function Request(kind: Kind, saved: Status, hasPass: bool, pc: PC): Req {
    Req(1, Pdf, kind, false, Some(5), saved, hasPass, pc, 0, 0, 0, 0, None, None, false)
  }

  /** Two customer requests for the book, of kinds k and l, both past the advisory count. */
  function Opening(k: Kind, l: Kind): seq<Event> {
    [EBegin(1, Pdf, k, false), EAccess(0, false, false, true), ECountBuilds(0, false, true),
     EBegin(1, Pdf, l, false), EAccess(1, false, false, true), ECountBuilds(1, false, true)]
  }

  // The database with nothing but requests added.
  function Idle(reqs: seq<Req>): State {
    OneBook(Uploaded, Final, 0, [], reqs)
  }

  lemma BeginStep(reqs: seq<Req>, k: Kind)
    ensures Step(Idle(reqs), EBegin(1, Pdf, k, false)) == Idle(reqs + [Request(k, Uploaded, false, Access)])
  {
  }

  lemma AccessStep(reqs: seq<Req>, k: Kind)
    ensures Step(Idle(reqs + [Request(k, Uploaded, false, Access)]), EAccess(|reqs|, false, false, true))
         == Idle(reqs + [Request(k, Uploaded, true, CountBuilds)])
  {
    var all := reqs + [Request(k, Uploaded, false, Access)];
    assert all[|reqs| := Request(k, Uploaded, true, CountBuilds)] == reqs + [Request(k, Uploaded, true, CountBuilds)];
  }

  lemma CountStep(reqs: seq<Req>, k: Kind)
    ensures Step(Idle(reqs + [Request(k, Uploaded, true, CountBuilds)]), ECountBuilds(|reqs|, false, true))
         == Idle(reqs + [Request(k, Uploaded, true, RecordKind)])
  {
    var all := reqs + [Request(k, Uploaded, true, CountBuilds)];
    assert all[|reqs| := Request(k, Uploaded, true, RecordKind)] == reqs + [Request(k, Uploaded, true, RecordKind)];
  }

  function OpenOne(k: Kind, i: nat): seq<Event> {
    [EBegin(1, Pdf, k, false), EAccess(i, false, false, true), ECountBuilds(i, false, true)]
  }

  lemma OpenOneRuns(reqs: seq<Req>, k: Kind)
    ensures Run(Idle(reqs), OpenOne(k, |reqs|)) == Idle(reqs + [Request(k, Uploaded, true, RecordKind)])
  {
    BeginStep(reqs, k);
    AccessStep(reqs, k);
    CountStep(reqs, k);
    RunThree(Idle(reqs), OpenOne(k, |reqs|));
  }

  lemma OpeningRuns(k: Kind, l: Kind)
    ensures Run(Fresh(), Opening(k, l))
         == OneBook(Uploaded, Final, 0, [],
                    [Request(k, Uploaded, true, RecordKind), Request(l, Uploaded, true, RecordKind)])
  {
    var first := [Request(k, Uploaded, true, RecordKind)];
    assert Opening(k, l) == OpenOne(k, 0) + OpenOne(l, 1);
    assert [] + first == first;
    OpenOneRuns([], k);
    OpenOneRuns(first, l);
    RunConcat(Fresh(), OpenOne(k, 0), OpenOne(l, 1));
  }

  function AfterThree(s: State, x: seq<Event>): State
    requires |x| == 3
  {
    Step(Step(Step(s, x[0]), x[1]), x[2])
  }

  lemma RunThree(s: State, x: seq<Event>)
    requires |x| == 3
    ensures Run(s, x) == AfterThree(s, x)
  {
    assert x == x[..2] + [x[2]] && x[..2] == x[..1] + [x[1]] && x[..1] == [] + [x[0]];
    RunSnoc(s, x[..2], x[2]);
    RunSnoc(s, x[..1], x[1]);
    RunSnoc(s, [], x[0]);
  }

  const NEXT_0 := EStatement(0, true)
  const NEXT_1 := EStatement(1, true)
  const FAIL_0 := EStatement(0, false)
  const DEBIT_0 := EDebit(0, false, true)

  /** Two requests for the one book, nothing else going on. */
  function Pair(status: Status, kind: Kind, used: nat, ledger: seq<LedgerRow>, r: Req, l: Req): State {
    OneBook(status, kind, used, ledger, [r, l])
  }

  lemma SetFirst(r: Req, l: Req, x: Req)
    ensures [r, l][0 := x] == [x, l] && [r, l][1 := x] == [r, x]
  {
  }

  lemma RecordFirst(st: Status, k: Kind, u: nat, lg: seq<LedgerRow>, r: Req, l: Req)
    requires r.book == 1 && r.pc == RecordKind
    ensures Step(Pair(st, k, u, lg, r, l), NEXT_0) == Pair(st, r.kind, u, lg, r.(pc := Claim), l)
  {
    SetFirst(r, l, r.(pc := Claim));
  }

  lemma RecordSecond(st: Status, k: Kind, u: nat, lg: seq<LedgerRow>, r: Req, l: Req)
    requires l.book == 1 && l.pc == RecordKind
    ensures Step(Pair(st, k, u, lg, r, l), NEXT_1) == Pair(st, l.kind, u, lg, r, l.(pc := Claim))
  {
    SetFirst(r, l, l.(pc := Claim));
  }

  lemma ClaimFirst(st: Status, k: Kind, u: nat, lg: seq<LedgerRow>, r: Req, l: Req)
    requires r.book == 1 && r.pc == Claim && st != Converting
    ensures Step(Pair(st, k, u, lg, r, l), NEXT_0)
         == Pair(Converting, k, u, lg, r.(pc := if r.hasPass && r.kind == Final then Debit else Typeset), l)
  {
    SetFirst(r, l, r.(pc := if r.hasPass && r.kind == Final then Debit else Typeset));
  }

  lemma ClaimSecondLoses(k: Kind, u: nat, lg: seq<LedgerRow>, r: Req, l: Req)
    requires l.book == 1 && l.pc == Claim
    ensures Step(Pair(Converting, k, u, lg, r, l), NEXT_1) == Pair(Converting, k, u, lg, r, l.(pc := Done(Refused)))
  {
    SetFirst(r, l, l.(pc := Done(Refused)));
  }

  lemma DebitFirst(st: Status, k: Kind, lg: seq<LedgerRow>, r: Req, l: Req)
    requires r.book == 1 && r.pc == Debit && r.project == Some(5)
    ensures Step(Pair(st, k, 0, lg, r, l), DEBIT_0) == Pair(st, k, 1, lg, r.(pc := DebitRow, debits := r.debits + 1), l)
  {
    SetFirst(r, l, r.(pc := DebitRow, debits := r.debits + 1));
  }

  lemma DebitRowFirst(st: Status, k: Kind, u: nat, lg: seq<LedgerRow>, r: Req, l: Req)
    requires r.book == 1 && r.pc == DebitRow && r.project == Some(5)
    ensures Step(Pair(st, k, u, lg, r, l), NEXT_0)
         == Pair(st, k, u, lg + [LedgerRow(5, 1, -1, Build)], r.(pc := Typeset, debitRows := r.debitRows + 1), l)
  {
    SetFirst(r, l, r.(pc := Typeset, debitRows := r.debitRows + 1));
  }

  lemma TypesetFails(st: Status, k: Kind, u: nat, lg: seq<LedgerRow>, r: Req, l: Req)
    requires r.book == 1 && r.pc == Typeset && r.format == Pdf
    ensures Step(Pair(st, k, u, lg, r, l), FAIL_0) == Pair(st, k, u, lg, r.(pc := MarkFailed), l)
  {
    SetFirst(r, l, r.(pc := MarkFailed));
  }

  lemma MarkFailedFirst(st: Status, k: Kind, u: nat, lg: seq<LedgerRow>, r: Req, l: Req)
    requires r.book == 1 && r.pc == MarkFailed
    ensures Step(Pair(st, k, u, lg, r, l), NEXT_0) == Pair(Failed, k, u, lg, r.(pc := Reread), l)
  {
    SetFirst(r, l, r.(pc := Reread));
  }

  lemma RereadFirst(st: Status, k: Kind, u: nat, lg: seq<LedgerRow>, r: Req, l: Req)
    requires r.book == 1 && r.pc == Reread
    ensures Step(Pair(st, k, u, lg, r, l), NEXT_0)
         == Pair(st, k, u, lg, r.(reread := Some(k), pc := if k == Proof then Done(BuildFailed) else LookupPass), l)
  {
    SetFirst(r, l, r.(reread := Some(k), pc := if k == Proof then Done(BuildFailed) else LookupPass));
  }

  lemma LookupFirst(st: Status, k: Kind, lg: seq<LedgerRow>, r: Req, l: Req)
    requires r.book == 1 && r.project == Some(5) && r.pc == LookupPass
    ensures Step(Pair(st, k, 0, lg, r, l), NEXT_0) == Pair(st, k, 0, lg, r.(pc := Refund, found := Some(true)), l)
  {
    SetFirst(r, l, r.(pc := Refund, found := Some(true)));
  }

  lemma CountDownFirst(st: Status, k: Kind, lg: seq<LedgerRow>, r: Req, l: Req)
    requires r.book == 1 && r.project == Some(5) && r.pc == Refund
    ensures Step(Pair(st, k, 0, lg, r, l), NEXT_0)
         == Pair(st, k, 0, lg, r.(pc := RefundRow, refunds := r.refunds + 1), l)
  {
    SetFirst(r, l, r.(pc := RefundRow, refunds := r.refunds + 1));
  }

  lemma RefundRowFirst(st: Status, k: Kind, lg: seq<LedgerRow>, r: Req, l: Req)
    requires r.book == 1 && r.project == Some(5) && r.pc == RefundRow
    ensures Step(Pair(st, k, 0, lg, r, l), NEXT_0)
         == Pair(st, k, 0, lg + [LedgerRow(5, 1, 1, BuildFailedRefund)],
                 r.(pc := Done(BuildFailed), refundRows := r.refundRows + 1), l)
  {
    SetFirst(r, l, r.(pc := Done(BuildFailed), refundRows := r.refundRows + 1));
  }

  lemma RefundFirst(st: Status, k: Kind, lg: seq<LedgerRow>, r: Req, l: Req)
    requires r.book == 1 && r.project == Some(5) && r.pc == LookupPass
    ensures
      var s := Pair(st, k, 0, lg, r, l);
      Step(Step(Step(s, NEXT_0), NEXT_0), NEXT_0)
      == Pair(st, k, 0, lg + [LedgerRow(5, 1, 1, BuildFailedRefund)],
              r.(pc := Done(BuildFailed), found := Some(true), refunds := r.refunds + 1,
                 refundRows := r.refundRows + 1), l)
  {
    LookupFirst(st, k, lg, r, l);
    CountDownFirst(st, k, lg, r.(pc := Refund, found := Some(true)), l);
    RefundRowFirst(st, k, lg, r.(pc := RefundRow, found := Some(true), refunds := r.refunds + 1), l);
  }

  function Charged(pc: PC): Req {
    Request(Final, Uploaded, true, pc).(debits := 1, debitRows := 1)
  }

  /** After the two openings: a final is claimed and paid for, a proof of the same book records its
      kind and loses the claim, the final fails. */
  const LOST_REFUND := [NEXT_0, NEXT_0, DEBIT_0] + [NEXT_0, NEXT_1, NEXT_1] + [FAIL_0, NEXT_0, NEXT_0]

  /** The kind a losing proof request wrote before its claim was refused is what the failure
      handler of the final re-reads: the credit is never refunded, though no statement failed. */
  lemma LosingProofStealsRefund()
    ensures Start(Fresh())
    ensures var t := Run(Run(Fresh(), Opening(Final, Proof)), LOST_REFUND);
      t.reqs == [Charged(Done(BuildFailed)).(reread := Some(Proof)), Request(Proof, Uploaded, true, Done(Refused))]
      && Used(t, 5) == 1
    ensures Charge(Charged(Done(BuildFailed)).(reread := Some(Proof))) == 1
  {
    OpeningRuns(Final, Proof);
    var r, l := Request(Final, Uploaded, true, RecordKind), Request(Proof, Uploaded, true, RecordKind);
    var s := Pair(Uploaded, Final, 0, [], r, l);
    var row := [LedgerRow(5, 1, -1, Build)];
    RecordFirst(Uploaded, Final, 0, [], r, l);
    ClaimFirst(Uploaded, Final, 0, [], r.(pc := Claim), l);
    DebitFirst(Converting, Final, [], r.(pc := Debit), l);
    DebitRowFirst(Converting, Final, 1, [], r.(pc := DebitRow, debits := 1), l);
    assert [] + row == row;
    RecordSecond(Converting, Final, 1, row, Charged(Typeset), l);
    ClaimSecondLoses(Proof, 1, row, Charged(Typeset), l.(pc := Claim));
    TypesetFails(Converting, Proof, 1, row, Charged(Typeset), l.(pc := Done(Refused)));
    MarkFailedFirst(Converting, Proof, 1, row, Charged(MarkFailed), l.(pc := Done(Refused)));
    RereadFirst(Failed, Proof, 1, row, Charged(Reread), l.(pc := Done(Refused)));
    RunNine(s, [NEXT_0, NEXT_0, DEBIT_0], [NEXT_0, NEXT_1, NEXT_1], [FAIL_0, NEXT_0, NEXT_0]);
  }

  lemma RunNine(s: State, x: seq<Event>, y: seq<Event>, z: seq<Event>)
    requires |x| == |y| == |z| == 3
    ensures Run(s, x + y + z) == AfterThree(AfterThree(AfterThree(s, x), y), z)
  {
    RunConcat(s, x + y, z);
    RunConcat(s, x, y);
    RunThree(s, x);
    RunThree(Run(s, x), y);
    RunThree(Run(s, x + y), z);
  }

  /** The other way round: a proof is in flight, a losing final rewrites the kind, the proof fails. */
  const FALSE_REFUND := [NEXT_0, NEXT_0, NEXT_1] + [NEXT_1, FAIL_0, NEXT_0] + [NEXT_0, NEXT_0, NEXT_0]

  /** A losing final makes a failed proof look like a final: its handler decrements a count that is
      already zero and writes a refund row for a build that was never charged, so the ledger and
      builds_used part company. */
  lemma LosingFinalInventsRefund()
    ensures Start(Fresh())
    ensures var t := Run(Fresh(), Opening(Proof, Final) + FALSE_REFUND + [NEXT_0]);
      |t.reqs| == 2 && t.reqs[0].kind == Proof && t.reqs[0].pc == Done(BuildFailed) && t.reqs[0].refunds == 1
      && !t.reqs[0].fault && t.reqs[1].pc == Done(Refused) && Used(t, 5) == 0 && LedgerSpent(t.ledger, 5) == -1
    ensures var t := Run(Fresh(), Opening(Proof, Final) + FALSE_REFUND + [NEXT_0]);
      |t.reqs| == 2 && t.reqs[0].debits == 0 && t.reqs[1].debits == 0 && t.reqs[1].refunds == 0
      && t.reqs[0].project == Some(5)
  {
    OpeningRuns(Proof, Final);
    var r, l := Request(Proof, Uploaded, true, RecordKind), Request(Final, Uploaded, true, RecordKind);
    var s := Pair(Uploaded, Final, 0, [], r, l);
    var l' := l.(pc := Done(Refused));
    RecordFirst(Uploaded, Final, 0, [], r, l);
    ClaimFirst(Uploaded, Proof, 0, [], r.(pc := Claim), l);
    RecordSecond(Converting, Proof, 0, [], r.(pc := Typeset), l);
    ClaimSecondLoses(Final, 0, [], r.(pc := Typeset), l.(pc := Claim));
    TypesetFails(Converting, Final, 0, [], r.(pc := Typeset), l');
    MarkFailedFirst(Converting, Final, 0, [], r.(pc := MarkFailed), l');
    RereadFirst(Failed, Final, 0, [], r.(pc := Reread), l');
    RefundFirst(Failed, Final, [], r.(pc := LookupPass, reread := Some(Final)), l');
    RunNine(s, [NEXT_0, NEXT_0, NEXT_1], [NEXT_1, FAIL_0, NEXT_0], [NEXT_0, NEXT_0, NEXT_0]);
    RunSnoc(Fresh(), Opening(Proof, Final) + FALSE_REFUND, NEXT_0);
    RunConcat(Fresh(), Opening(Proof, Final), FALSE_REFUND);
    LedgerAppend([], LedgerRow(5, 1, 1, BuildFailedRefund), 5);
  }

  /** Its refund is the one that met zero. */
  lemma LosingFinalMeetsZero()
    ensures Clamps(Fresh(), Opening(Proof, Final) + FALSE_REFUND + [NEXT_0], 5) == 1
  {
    LosingFinalInventsRefund();
    var events := Opening(Proof, Final) + FALSE_REFUND + [NEXT_0];
    RunBalances(Fresh(), events, 5);
    TotalOfTwo(Run(Fresh(), events).reqs);
  }

  lemma TotalOfTwo(reqs: seq<Req>)
    requires |reqs| == 2
    ensures Total(UsedCount, 5, reqs) == Amount(UsedCount, 5, reqs[0]) + Amount(UsedCount, 5, reqs[1])
  {
    assert reqs[..2 - 1] == [reqs[0]];
    assert [reqs[0]][..0] == [];
    assert Total(UsedCount, 5, [reqs[0]]) == Amount(UsedCount, 5, reqs[0]);
  }

  // ----- a pass attached during a build ---------------------------------------------------------

  /** The one book, with at most one request; its project has a pass or none. */
  function Solo(status: Status, passes: map<int, Pass>, ledger: seq<LedgerRow>, reqs: seq<Req>): State {
    State(map[1 := Book(Some(5), status, Final)], passes, ledger, [], reqs)
  }

  function Passless(): State {
    Solo(Uploaded, map[], [], [])
  }

  function NewPass(): map<int, Pass> {
    map[5 := Pass(1, 0, 0)]
  }

  /** An admin's final, made with no pass on its project. */
  function AdminFinal(pc: PC): Req {
    Request(Final, Uploaded, false, pc).(admin := true)
  }

  function Asked(): seq<Event> {
    [EBegin(1, Pdf, Final, true), EAccess(0, false, false, true), ECountBuilds(0, false, true)]
  }

  function Started(): seq<Event> {
    [NEXT_0, NEXT_0, ENewPass(5, 1)]
  }

  function FailsToTypeset(): seq<Event> {
    [FAIL_0, NEXT_0, NEXT_0]
  }

  function AttachedDuringBuild(): seq<Event> {
    Asked() + Started() + FailsToTypeset() + [NEXT_0, NEXT_0, NEXT_0]
  }

  lemma SetOnly(r: Req, x: Req)
    ensures [r][0 := x] == [x]
  {
  }

  lemma AskedRuns()
    ensures AfterThree(Passless(), Asked()) == Solo(Uploaded, map[], [], [AdminFinal(RecordKind)])
  {
    assert [] + [AdminFinal(Access)] == [AdminFinal(Access)];
    assert Step(Passless(), Asked()[0]) == Solo(Uploaded, map[], [], [AdminFinal(Access)]);
    SetOnly(AdminFinal(Access), AdminFinal(CountBuilds));
    assert Step(Solo(Uploaded, map[], [], [AdminFinal(Access)]), Asked()[1])
        == Solo(Uploaded, map[], [], [AdminFinal(CountBuilds)]);
    SetOnly(AdminFinal(CountBuilds), AdminFinal(RecordKind));
  }

  lemma StartedRuns()
    ensures AfterThree(Solo(Uploaded, map[], [], [AdminFinal(RecordKind)]), Started())
         == Solo(Converting, NewPass(), [], [AdminFinal(Typeset)])
  {
    SetOnly(AdminFinal(RecordKind), AdminFinal(Claim));
    assert Step(Solo(Uploaded, map[], [], [AdminFinal(RecordKind)]), NEXT_0)
        == Solo(Uploaded, map[], [], [AdminFinal(Claim)]);
    SetOnly(AdminFinal(Claim), AdminFinal(Typeset));
    assert Step(Solo(Uploaded, map[], [], [AdminFinal(Claim)]), NEXT_0)
        == Solo(Converting, map[], [], [AdminFinal(Typeset)]);
  }

  lemma FailureRuns()
    ensures AfterThree(Solo(Converting, NewPass(), [], [AdminFinal(Typeset)]), FailsToTypeset())
         == Solo(Failed, NewPass(), [], [AdminFinal(LookupPass).(reread := Some(Final))])
  {
    SetOnly(AdminFinal(Typeset), AdminFinal(MarkFailed));
    assert Step(Solo(Converting, NewPass(), [], [AdminFinal(Typeset)]), FAIL_0)
        == Solo(Converting, NewPass(), [], [AdminFinal(MarkFailed)]);
    SetOnly(AdminFinal(MarkFailed), AdminFinal(Reread));
    assert Step(Solo(Converting, NewPass(), [], [AdminFinal(MarkFailed)]), NEXT_0)
        == Solo(Failed, NewPass(), [], [AdminFinal(Reread)]);
    SetOnly(AdminFinal(Reread), AdminFinal(LookupPass).(reread := Some(Final)));
  }

  function Finder(pc: PC): Req {
    AdminFinal(pc).(reread := Some(Final), found := Some(true))
  }

  lemma RefundRuns()
    ensures AfterThree(Solo(Failed, NewPass(), [], [AdminFinal(LookupPass).(reread := Some(Final))]),
                       [NEXT_0, NEXT_0, NEXT_0])
         == Solo(Failed, NewPass(), [LedgerRow(5, 1, 1, BuildFailedRefund)],
                 [Finder(Done(BuildFailed)).(refunds := 1, refundRows := 1)])
  {
    var s := Solo(Failed, NewPass(), [], [AdminFinal(LookupPass).(reread := Some(Final))]);
    SetOnly(s.reqs[0], Finder(Refund));
    assert Step(s, NEXT_0) == Solo(Failed, NewPass(), [], [Finder(Refund)]);
    SetOnly(Finder(Refund), Finder(RefundRow).(refunds := 1));
    assert Step(Solo(Failed, NewPass(), [], [Finder(Refund)]), NEXT_0)
        == Solo(Failed, NewPass(), [], [Finder(RefundRow).(refunds := 1)]);
    SetOnly(Finder(RefundRow).(refunds := 1), Finder(Done(BuildFailed)).(refunds := 1, refundRows := 1));
    var row := LedgerRow(5, 1, 1, BuildFailedRefund);
    assert [] + [row] == [row];
  }

  lemma AttachedRuns()
    ensures Run(Passless(), AttachedDuringBuild())
         == Solo(Failed, NewPass(), [LedgerRow(5, 1, 1, BuildFailedRefund)],
                 [Finder(Done(BuildFailed)).(refunds := 1, refundRows := 1)])
  {
    AskedRuns();
    StartedRuns();
    FailureRuns();
    RefundRuns();
    RunNine(Passless(), Asked(), Started(), FailsToTypeset());
    RunConcat(Passless(), Asked() + Started() + FailsToTypeset(), [NEXT_0, NEXT_0, NEXT_0]);
    RunThree(Run(Passless(), Asked() + Started() + FailsToTypeset()), [NEXT_0, NEXT_0, NEXT_0]);
  }

  /** A final is started where there is no pass and is not charged; a pass is attached while it runs;
      it fails and is refunded, at a count of zero. No statement fails, and the one request there is
      rewrites nobody's kind. */
  lemma AttachedPassIsRefunded()
    ensures Start(Passless())
    ensures var t := Run(Passless(), AttachedDuringBuild());
      && |t.reqs| == 1 && t.reqs[0].pc == Done(BuildFailed) && !t.reqs[0].fault && !t.reqs[0].hasPass
      && t.reqs[0].reread == Some(t.reqs[0].kind) && Charge(t.reqs[0]) == -1
      && Used(t, 5) == 0 && LedgerSpent(t.ledger, 5) == -1
    ensures Clamps(Passless(), AttachedDuringBuild(), 5) == 1
  {
    AttachedRuns();
    RunBalances(Passless(), AttachedDuringBuild(), 5);
    LedgerAppend([], LedgerRow(5, 1, 1, BuildFailedRefund), 5);
    var t := Run(Passless(), AttachedDuringBuild());
    assert [] + t.ledger == t.ledger && t.reqs[..0] == [];
    assert Total(UsedCount, 5, t.reqs) == Amount(UsedCount, 5, t.reqs[0]);
  }
}
