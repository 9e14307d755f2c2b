/** Credits and ledger of the build protocol: what a build costs, over every run. */
module BuildCredits {
  import opened Options
  import opened BuildProtocol
  import opened BuildSafety

  /** The request is one that costs a credit: a final on a project with a pass. */
  predicate Paid(r: Req) {
    r.hasPass && r.kind == Final
  }

  function One(b: bool): nat {
    if b then 1 else 0
  }

  // ----- one request -------------------------------------------------------------------------

  /** The failure handler has not read anything yet. */
  predicate Unread(r: Req) {
    r.refunds == r.refundRows == 0 && r.reread == None && r.found == None
  }

  /** What the failure handler read tells it to refund. */
  predicate ToRefund(r: Req) {
    r.reread == Some(Final) && r.found == Some(true)
  }

  /** What a request has written, as a function of where it is. */
  ghost predicate Tally(r: Req) {
    var d := One(Paid(r));
    match r.pc
    case Access | CountBuilds | RecordKind | Claim => r.debits == r.debitRows == 0 && Unread(r)
    case Debit => Paid(r) && r.debits == r.debitRows == 0 && Unread(r)
    case DebitRow => Paid(r) && r.debits == 1 && r.debitRows == 0 && Unread(r)
    case Unclaim | Done(Refused) => r.debits <= One(r.fault) && r.debitRows == 0 && Unread(r)
    case Typeset | PruneProofs | EpubStage | MarkReady | MarkFailed | Reread | Done(Delivered) =>
      r.debits == r.debitRows == d && Unread(r)
    case LookupPass =>
      r.debits == r.debitRows == d && r.refunds == r.refundRows == 0 && r.reread == Some(Final) && r.found == None
    case Refund => r.debits == r.debitRows == d && r.refunds == r.refundRows == 0 && ToRefund(r)
    case RefundRow => r.debits == r.debitRows == d && r.refunds == 1 && r.refundRows == 0 && ToRefund(r)
    case Done(Unrecorded) => r.fault
    case Done(BuildFailed) =>
      && r.debits == r.debitRows == d && r.refundRows <= r.refunds <= 1
      && (!r.fault ==> r.reread.Some? && r.refunds == r.refundRows == One(ToRefund(r)))
      && (!r.fault && r.hasPass && r.reread == Some(Final) ==> r.found == Some(true))
    case Done(Killed) => r.debitRows <= r.debits <= 1 && r.refundRows <= r.refunds <= 1
  }

  /** The pass a handler has found does not go away. */
  ghost predicate PassKnown(s: State, r: Req) {
    r.pc in {Refund, RefundRow} ==> r.project.Some? && r.project.value in s.passes
  }

  ghost predicate Tallied(s: State) {
    forall i :: 0 <= i < |s.reqs| ==> Tally(s.reqs[i]) && PassKnown(s, s.reqs[i])
  }

  lemma HandlerTallies(s: State, i: nat, ok: bool)
    requires Exclusive(s) && Tallied(s) && i < |s.reqs| && s.reqs[i].pc in {RecordKind, Claim, DebitRow, Unclaim}
    ensures var t := StepStatement(s, i, ok); Tally(t.reqs[i]) && PassKnown(t, t.reqs[i]) && t.passes == s.passes
  {
    assert Tally(s.reqs[i]) && PassKnown(s, s.reqs[i]);
  }

  lemma BuildTallies(s: State, i: nat, ok: bool)
    requires Exclusive(s) && Tallied(s) && i < |s.reqs| && s.reqs[i].pc in {Typeset, PruneProofs, MarkReady}
    ensures var t := StepStatement(s, i, ok); Tally(t.reqs[i]) && PassKnown(t, t.reqs[i]) && t.passes == s.passes
  {
    assert Tally(s.reqs[i]) && PassKnown(s, s.reqs[i]);
  }

  lemma FailureTallies(s: State, i: nat, ok: bool)
    requires Exclusive(s) && Tallied(s) && i < |s.reqs|
    requires s.reqs[i].pc in {MarkFailed, Reread, LookupPass, Refund, RefundRow}
    ensures var t := StepStatement(s, i, ok);
      Tally(t.reqs[i]) && PassKnown(t, t.reqs[i]) && t.passes.Keys == s.passes.Keys
  {
    assert Tally(s.reqs[i]) && PassKnown(s, s.reqs[i]);
  }

  lemma StatementTallies(s: State, i: nat, ok: bool)
    requires Exclusive(s) && Tallied(s) && i < |s.reqs|
    ensures var t := StepStatement(s, i, ok);
      Tally(t.reqs[i]) && PassKnown(t, t.reqs[i]) && t.passes.Keys == s.passes.Keys
  {
    match s.reqs[i].pc {
      case RecordKind | Claim | DebitRow | Unclaim => HandlerTallies(s, i, ok);
      case Typeset | PruneProofs | MarkReady => BuildTallies(s, i, ok);
      case MarkFailed | Reread | LookupPass | Refund | RefundRow => FailureTallies(s, i, ok);
      case _ => assert Tally(s.reqs[i]) && PassKnown(s, s.reqs[i]);
    }
  }

  /** The events that are one step of request e.i. */
  predicate OwnStep(s: State, e: Event) {
    (e.EAccess? || e.ECountBuilds? || e.EStatement? || e.EDebit? || e.EEpub?) && e.i < |s.reqs|
  }

  lemma AccessTallies(s: State, e: Event)
    requires Exclusive(s) && Tallied(s) && OwnStep(s, e) && e.EAccess? && At(s, e.i, Access)
    ensures var t := Step(s, e);
      Tally(t.reqs[e.i]) && PassKnown(t, t.reqs[e.i]) && t.passes.Keys == s.passes.Keys
  {
    assert Tally(s.reqs[e.i]);
  }

  lemma CountTallies(s: State, e: Event)
    requires Exclusive(s) && Tallied(s) && OwnStep(s, e) && e.ECountBuilds? && At(s, e.i, CountBuilds)
    ensures var t := Step(s, e);
      Tally(t.reqs[e.i]) && PassKnown(t, t.reqs[e.i]) && t.passes.Keys == s.passes.Keys
  {
    assert Tally(s.reqs[e.i]) && PassKnown(s, s.reqs[e.i]);
  }

  lemma DebitTallies(s: State, e: Event)
    requires Exclusive(s) && Tallied(s) && OwnStep(s, e) && (e.EDebit? || e.EEpub?)
    ensures var t := Step(s, e);
      Tally(t.reqs[e.i]) && PassKnown(t, t.reqs[e.i]) && t.passes.Keys == s.passes.Keys
  {
    assert Tally(s.reqs[e.i]) && PassKnown(s, s.reqs[e.i]);
  }

  lemma OwnStepTallies(s: State, e: Event)
    requires Exclusive(s) && Tallied(s) && OwnStep(s, e)
    ensures var t := Step(s, e);
      Local(s, t, e.i) && Tally(t.reqs[e.i]) && PassKnown(t, t.reqs[e.i]) && t.passes.Keys == s.passes.Keys
  {
    OwnStepIsLocal(s, e);
    if e.EStatement? {
      StatementTallies(s, e.i, e.ok);
    } else if e.EAccess? && At(s, e.i, Access) {
      AccessTallies(s, e);
    } else if e.ECountBuilds? && At(s, e.i, CountBuilds) {
      CountTallies(s, e);
    } else if e.EAccess? || e.ECountBuilds? {
      assert Tally(s.reqs[e.i]) && PassKnown(s, s.reqs[e.i]);
    } else {
      DebitTallies(s, e);
    }
  }

  lemma OwnStepIsLocal(s: State, e: Event)
    requires Exclusive(s) && OwnStep(s, e)
    ensures Local(s, Step(s, e), e.i)
  {
    StepIsLocal(s, e);
    assert s.reqs == s.reqs[e.i := s.reqs[e.i]] && s.books == s.books[s.reqs[e.i].book := s.books[s.reqs[e.i].book]];
  }

  lemma OwnStepKeepsTallied(s: State, e: Event)
    requires Exclusive(s) && Tallied(s) && OwnStep(s, e)
    ensures Tallied(Step(s, e))
  {
    var t := Step(s, e);
    OwnStepTallies(s, e);
    forall j | 0 <= j < |t.reqs| ensures Tally(t.reqs[j]) && PassKnown(t, t.reqs[j]) {
      if j != e.i {
        assert t.reqs[j] == s.reqs[j];
        assert Tally(s.reqs[j]) && PassKnown(s, s.reqs[j]);
      }
    }
  }

  lemma EnvironmentKeepsTallied(s: State, e: Event)
    requires Exclusive(s) && Tallied(s) && !OwnStep(s, e)
    ensures Tallied(Step(s, e))
  {
    var t := Step(s, e);
    forall j | 0 <= j < |t.reqs| ensures Tally(t.reqs[j]) && PassKnown(t, t.reqs[j]) {
      if j < |s.reqs| {
        assert Tally(s.reqs[j]) && PassKnown(s, s.reqs[j]);
        assert t.reqs[j] == if e.ECrash? then Crashed(s.reqs[j]) else s.reqs[j];
        assert s.books[s.reqs[j].book].project == s.reqs[j].project;
      }
    }
  }

  lemma {:induction false} RunKeepsTallied(s: State, events: seq<Event>)
    requires Start(s)
    ensures Tallied(Run(s, events))
  {
    if events != [] {
      var front, e := events[..|events| - 1], events[|events| - 1];
      RunKeepsTallied(s, front);
      RunKeepsExclusive(s, front);
      var t := Run(s, front);
      if OwnStep(t, e) { OwnStepKeepsTallied(t, e); } else { EnvironmentKeepsTallied(t, e); }
    }
  }

  /** The net number of credits a request has taken, on its counters. */
  function Charge(r: Req): int {
    r.debits - r.refunds
  }

  lemma TallyCharge(r: Req)
    requires Tally(r) && !r.fault
    ensures r.pc == Done(Refused) ==> Charge(r) == 0
    ensures r.pc == Done(Delivered) ==> Charge(r) == if r.kind == Final && r.hasPass then 1 else 0
    ensures r.pc == Done(BuildFailed) ==> FailedCharge(r)
  {
    if r.pc == Done(BuildFailed) {
      assert r.reread.Some?;
      assert r.reread.value == Final || r.reread.value == Proof;
      assert r.refunds == One(ToRefund(r)) && r.debits == One(Paid(r));
    }
  }

  /** A failed build costs nothing exactly when: with a pass, the handler re-read the kind the
      request was made with; without one, the handler did not find a pass for what it took for a
      final. A charged one whose kind was kept is refunded once. */
  predicate FailedCharge(r: Req) {
    && (Charge(r) == 0 <==> if r.hasPass then r.reread == Some(r.kind) else !ToRefund(r))
    && (Paid(r) && r.reread == Some(r.kind) ==> r.refunds == 1)
    && (!r.hasPass && ToRefund(r) ==> Charge(r) == -1)
  }

  /** What one finished build costs, on any interleaving, if none of its own statements failed:
      a delivered final one credit, a delivered proof nothing, and a failed build as FailedCharge
      says. */
  lemma FinishedBuildCharge(s: State, events: seq<Event>, i: nat)
    requires Start(s)
    requires i < |Run(s, events).reqs| && !Run(s, events).reqs[i].fault
    ensures var r := Run(s, events).reqs[i];
      && (r.pc == Done(Refused) ==> Charge(r) == 0)
      && (r.pc == Done(Delivered) ==> Charge(r) == if r.kind == Final && r.hasPass then 1 else 0)
      && (r.pc == Done(BuildFailed) ==> FailedCharge(r))
  {
    RunKeepsTallied(s, events);
    TallyCharge(Run(s, events).reqs[i]);
  }

  // ----- totals over all requests ---------------------------------------------------------------

  datatype Column = UsedCount | LedgerCount | CreditsHeld | PausedWrites | Kept | Invented

  /** The request is a final that holds a credit: debited, not refunded, in flight or delivered. */
  predicate HoldsCredit(r: Req) {
    Paid(r) && r.pc in {DebitRow, Typeset, PruneProofs, EpubStage, MarkReady, MarkFailed, Reread, LookupPass, Refund,
                        Done(Delivered)}
  }

  function Amount(c: Column, project: int, r: Req): int {
    if r.project != Some(project) then 0
    else match c
      case UsedCount => r.debits - r.refunds
      case LedgerCount => r.debitRows - r.refundRows
      case CreditsHeld => One(HoldsCredit(r))
      case PausedWrites => One(r.pc == DebitRow) - One(r.pc == RefundRow)
      case Kept => One(Paid(r) && r.pc == Done(BuildFailed) && r.refunds == 0)   // failed, never refunded
      case Invented => One(!Paid(r) && r.refunds == 1)                           // refunded, never charged
  }

  function Total(c: Column, project: int, reqs: seq<Req>): int {
    if reqs == [] then 0
    else Total(c, project, reqs[..|reqs| - 1]) + Amount(c, project, reqs[|reqs| - 1])
  }

  lemma {:induction false} TotalUpdate(c: Column, p: int, reqs: seq<Req>, i: nat, r: Req)
    requires i < |reqs|
    ensures Total(c, p, reqs[i := r]) == Total(c, p, reqs) - Amount(c, p, reqs[i]) + Amount(c, p, r)
  {
    var n := |reqs| - 1;
    if i < n {
      assert reqs[i := r][..n] == reqs[..n][i := r];
      TotalUpdate(c, p, reqs[..n], i, r);
    } else {
      assert reqs[i := r][..n] == reqs[..n];
    }
  }

  lemma {:induction false} TotalSame(c: Column, d: Column, p: int, xs: seq<Req>, ys: seq<Req>)
    requires |xs| == |ys|
    requires forall i :: 0 <= i < |xs| ==> Amount(c, p, xs[i]) == Amount(d, p, ys[i])
    ensures Total(c, p, xs) == Total(d, p, ys)
  {
    if xs != [] {
      TotalSame(c, d, p, xs[..|xs| - 1], ys[..|ys| - 1]);
    }
  }

  lemma {:induction false} TotalSum(c: Column, d: Column, e: Column, p: int, reqs: seq<Req>)
    requires forall i :: 0 <= i < |reqs| ==> Amount(c, p, reqs[i]) == Amount(d, p, reqs[i]) + Amount(e, p, reqs[i])
    ensures Total(c, p, reqs) == Total(d, p, reqs) + Total(e, p, reqs)
  {
    if reqs != [] {
      TotalSum(c, d, e, p, reqs[..|reqs| - 1]);
    }
  }

  lemma {:induction false} TotalAtLeast(c: Column, p: int, reqs: seq<Req>, i: nat)
    requires i < |reqs| && forall j :: 0 <= j < |reqs| ==> Amount(c, p, reqs[j]) >= 0
    ensures Total(c, p, reqs) >= Amount(c, p, reqs[i])
  {
    var n := |reqs| - 1;
    if i < n {
      TotalAtLeast(c, p, reqs[..n], i);
    } else if n > 0 {
      TotalAtLeast(c, p, reqs[..n], n - 1);
    }
  }

  /** -1 for each debit row, +1 for each refund row, negated: the credits the ledger says are spent. */
  function LedgerSpent(ledger: seq<LedgerRow>, project: int): int {
    if ledger == [] then 0
    else
      var row := ledger[|ledger| - 1];
      LedgerSpent(ledger[..|ledger| - 1], project) - (if row.project == project then row.delta else 0)
  }

  function Used(s: State, project: int): nat {
    if project in s.passes then s.passes[project].used else 0
  }

  /** The step is a refund of a pass whose count is already zero: the clamp of the decrement keeps
      it there, while the request counts a refund. */
  predicate MeetsZero(s: State, e: Event, p: int) {
    e.EStatement? && e.ok && At(s, e.i, Refund) && s.reqs[e.i].project == Some(p) && p in s.passes && Used(s, p) == 0
  }

  /** The refunds of a run that met a zero count. */
  function Clamps(s: State, events: seq<Event>, p: int): nat {
    if events == [] then 0
    else
      var front, e := events[..|events| - 1], events[|events| - 1];
      Clamps(s, front, p) + One(MeetsZero(Run(s, front), e, p))
  }

  /** A step writes the same amounts to the tables as to its own counters, but for a clamped refund. */
  ghost predicate Balanced(s: State, t: State, i: nat, p: int, clamped: bool)
    requires i < |s.reqs| && i < |t.reqs|
  {
    && LedgerSpent(t.ledger, p) - LedgerSpent(s.ledger, p)
       == Amount(LedgerCount, p, t.reqs[i]) - Amount(LedgerCount, p, s.reqs[i])
    && Used(t, p) - Used(s, p)
       == Amount(UsedCount, p, t.reqs[i]) - Amount(UsedCount, p, s.reqs[i]) + One(clamped)
  }

  lemma LedgerAppend(ledger: seq<LedgerRow>, row: LedgerRow, p: int)
    ensures LedgerSpent(ledger + [row], p) == LedgerSpent(ledger, p) - (if row.project == p then row.delta else 0)
  {
    assert (ledger + [row])[..|ledger|] == ledger;
  }

  lemma QuietBalances(s: State, t: State, i: nat, p: int)
    requires i < |s.reqs| && |t.reqs| == |s.reqs|
    requires t.ledger == s.ledger && Used(t, p) == Used(s, p)
    requires Amount(LedgerCount, p, t.reqs[i]) == Amount(LedgerCount, p, s.reqs[i])
    requires Amount(UsedCount, p, t.reqs[i]) == Amount(UsedCount, p, s.reqs[i])
    ensures Balanced(s, t, i, p, false)
  {
  }

  lemma HandlerBalances(s: State, i: nat, ok: bool, p: int)
    requires i < |s.reqs| && s.reqs[i].book in s.books && s.reqs[i].pc in {RecordKind, Claim, DebitRow, Unclaim}
    ensures Balanced(s, StepStatement(s, i, ok), i, p, false)
  {
    if s.reqs[i].pc == DebitRow {
      DebitRowBalances(s, i, ok, p);
    } else {
      QuietBalances(s, StepStatement(s, i, ok), i, p);
    }
  }

  lemma DebitRowBalances(s: State, i: nat, ok: bool, p: int)
    requires At(s, i, DebitRow)
    ensures Balanced(s, StepStatement(s, i, ok), i, p, false)
  {
    var r := s.reqs[i];
    if r.project.Some? {
      LedgerAppend(s.ledger, LedgerRow(r.project.value, r.book, -1, Build), p);
    }
  }

  lemma BuildBalances(s: State, i: nat, ok: bool, p: int)
    requires i < |s.reqs| && s.reqs[i].book in s.books && s.reqs[i].pc in {Typeset, PruneProofs, MarkReady}
    ensures Balanced(s, StepStatement(s, i, ok), i, p, false)
  {
  }

  lemma RereadBalances(s: State, i: nat, ok: bool, p: int)
    requires i < |s.reqs| && s.reqs[i].book in s.books && s.reqs[i].pc in {MarkFailed, Reread, LookupPass}
    ensures Balanced(s, StepStatement(s, i, ok), i, p, false)
  {
  }

  lemma RefundBalances(s: State, i: nat, ok: bool, p: int)
    requires At(s, i, Refund)
    ensures Balanced(s, StepRefund(s, i, ok), i, p, MeetsZero(s, EStatement(i, ok), p))
  {
  }

  lemma RefundRowBalances(s: State, i: nat, ok: bool, p: int)
    requires At(s, i, RefundRow)
    ensures Balanced(s, StepRefundRow(s, i, ok), i, p, false)
  {
    var r := s.reqs[i];
    if r.project.Some? {
      LedgerAppend(s.ledger, LedgerRow(r.project.value, r.book, 1, BuildFailedRefund), p);
    }
  }

  lemma AccessQuiet(s: State, i: nat, g: bool, refuse: bool, ok: bool, p: int)
    requires At(s, i, Access)
    ensures var t := StepAccess(s, i, g, refuse, ok); |t.reqs| == |s.reqs| && Balanced(s, t, i, p, false)
  {
    QuietBalances(s, StepAccess(s, i, g, refuse, ok), i, p);
  }

  lemma CountQuiet(s: State, i: nat, refuse: bool, ok: bool, p: int)
    requires At(s, i, CountBuilds)
    ensures var t := StepCountBuilds(s, i, refuse, ok); |t.reqs| == |s.reqs| && Balanced(s, t, i, p, false)
  {
    QuietBalances(s, StepCountBuilds(s, i, refuse, ok), i, p);
  }

  lemma AccessBalances(s: State, e: Event, p: int)
    requires OwnStep(s, e) && (e.EAccess? || e.ECountBuilds?)
    ensures |Step(s, e).reqs| == |s.reqs| && Balanced(s, Step(s, e), e.i, p, false)
  {
    if e.EAccess? && At(s, e.i, Access) {
      AccessQuiet(s, e.i, e.gateOff, e.refuse, e.ok, p);
    } else if e.ECountBuilds? && At(s, e.i, CountBuilds) {
      CountQuiet(s, e.i, e.refuse, e.ok, p);
    } else {
      assert Step(s, e) == s;
      QuietBalances(s, s, e.i, p);
    }
  }

  lemma DebitBalances(s: State, e: Event, p: int)
    requires OwnStep(s, e) && e.EDebit?
    ensures |Step(s, e).reqs| == |s.reqs| && Balanced(s, Step(s, e), e.i, p, false)
  {
  }

  lemma EpubBalances(s: State, e: Event, p: int)
    requires OwnStep(s, e) && e.EEpub?
    ensures |Step(s, e).reqs| == |s.reqs| && Balanced(s, Step(s, e), e.i, p, false)
  {
  }

  lemma OwnStepBalances(s: State, e: Event, p: int)
    requires Exclusive(s) && OwnStep(s, e)
    ensures |Step(s, e).reqs| == |s.reqs| && Balanced(s, Step(s, e), e.i, p, MeetsZero(s, e, p))
  {
    match e {
      case EStatement(i, ok) =>
        match s.reqs[i].pc {
          case RecordKind | Claim | DebitRow | Unclaim => HandlerBalances(s, i, ok, p);
          case Typeset | PruneProofs | MarkReady => BuildBalances(s, i, ok, p);
          case MarkFailed | Reread | LookupPass => RereadBalances(s, i, ok, p);
          case Refund => RefundBalances(s, i, ok, p);
          case RefundRow => RefundRowBalances(s, i, ok, p);
          case _ =>
        }
      case EDebit(_, _, _) => DebitBalances(s, e, p);
      case EEpub(_, _, _) => EpubBalances(s, e, p);
      case _ => AccessBalances(s, e, p);
    }
  }

  lemma OwnStepTotals(s: State, e: Event, c: Column, p: int)
    requires Exclusive(s) && OwnStep(s, e)
    ensures var t := Step(s, e);
      |t.reqs| == |s.reqs|
      && Total(c, p, t.reqs) - Total(c, p, s.reqs) == Amount(c, p, t.reqs[e.i]) - Amount(c, p, s.reqs[e.i])
  {
    OwnStepIsLocal(s, e);
    TotalUpdate(c, p, s.reqs, e.i, Step(s, e).reqs[e.i]);
  }

  lemma BeginTotals(s: State, e: Event, c: Column, p: int)
    requires e.EBegin? && c in {UsedCount, LedgerCount}
    ensures var t := Step(s, e);
      Total(c, p, t.reqs) == Total(c, p, s.reqs) && t.ledger == s.ledger && t.passes == s.passes
  {
    var t := Step(s, e);
    if |t.reqs| > |s.reqs| {
      assert t.reqs[..|t.reqs| - 1] == s.reqs;
    }
  }

  lemma CrashTotals(s: State, c: Column, p: int)
    requires c in {UsedCount, LedgerCount}
    ensures var t := Step(s, ECrash);
      Total(c, p, t.reqs) == Total(c, p, s.reqs) && t.ledger == s.ledger && t.passes == s.passes
  {
    TotalSame(c, c, p, Step(s, ECrash).reqs, s.reqs);
  }

  /** The environment's events change no count and no total. */
  lemma EnvironmentTotals(s: State, e: Event, c: Column, p: int)
    requires Exclusive(s) && !OwnStep(s, e) && c in {UsedCount, LedgerCount}
    ensures var t := Step(s, e);
      Total(c, p, t.reqs) == Total(c, p, s.reqs) && t.ledger == s.ledger && Used(t, p) == Used(s, p)
  {
    if e.EBegin? {
      BeginTotals(s, e, c, p);
    } else if e.ECrash? {
      CrashTotals(s, c, p);
    } else {
      assert Step(s, e).reqs == s.reqs;
    }
  }

  /** On every run, with any failures and crashes: the ledger holds what the requests wrote to it,
      and builds_used has moved by what they counted, plus one for each refund that met zero. */
  lemma {:induction false} RunBalances(s: State, events: seq<Event>, p: int)
    requires Start(s)
    ensures var t := Run(s, events);
      LedgerSpent(t.ledger, p) == Total(LedgerCount, p, t.reqs)
      && Used(t, p) == Used(s, p) + Total(UsedCount, p, t.reqs) + Clamps(s, events, p)
  {
    if events != [] {
      var front, e := events[..|events| - 1], events[|events| - 1];
      RunBalances(s, front, p);
      RunKeepsExclusive(s, front);
      var t := Run(s, front);
      if OwnStep(t, e) {
        OwnStepBalances(t, e, p);
        OwnStepTotals(t, e, LedgerCount, p);
        OwnStepTotals(t, e, UsedCount, p);
      } else {
        EnvironmentTotals(t, e, LedgerCount, p);
        EnvironmentTotals(t, e, UsedCount, p);
      }
    }
  }

  // ----- smooth runs ----------------------------------------------------------------------------

  /** No statement fails and the process does not die. */
  ghost predicate Smooth(s: State, e: Event) {
    && !e.ECrash?
    && (e.EAccess? || e.ECountBuilds? || e.EDebit? ==> e.ok)
    && (e.EStatement? && e.i < |s.reqs| && s.reqs[e.i].pc != Typeset ==> e.ok)
  }

  ghost predicate SmoothRun(s: State, events: seq<Event>) {
    events == [] ||
    (SmoothRun(s, events[..|events| - 1]) && Smooth(Run(s, events[..|events| - 1]), events[|events| - 1]))
  }

  predicate Sound(r: Req) {
    !r.fault && r.pc != Done(Killed) && r.pc != Done(Unrecorded)
  }

  ghost predicate Faultless(s: State) {
    forall i :: 0 <= i < |s.reqs| ==> Sound(s.reqs[i])
  }

  lemma HandlerStaysSound(s: State, i: nat)
    requires Exclusive(s) && Tallied(s) && i < |s.reqs| && Sound(s.reqs[i])
    requires s.reqs[i].pc in {RecordKind, Claim, DebitRow, Unclaim}
    ensures Sound(StepStatement(s, i, true).reqs[i])
  {
    assert Tally(s.reqs[i]);
  }

  lemma BuildStaysSound(s: State, i: nat, ok: bool)
    requires Exclusive(s) && i < |s.reqs| && Sound(s.reqs[i])
    requires s.reqs[i].pc in {Typeset, PruneProofs, MarkReady} && (ok || s.reqs[i].pc == Typeset)
    ensures Sound(StepStatement(s, i, ok).reqs[i])
  {
  }

  lemma FailureStaysSound(s: State, i: nat)
    requires Exclusive(s) && Tallied(s) && i < |s.reqs| && Sound(s.reqs[i])
    requires s.reqs[i].pc in {MarkFailed, Reread, LookupPass, Refund, RefundRow}
    ensures Sound(StepStatement(s, i, true).reqs[i])
  {
    assert Tally(s.reqs[i]) && PassKnown(s, s.reqs[i]);
  }

  lemma DebitStaysSound(s: State, i: nat, g: bool)
    requires Exclusive(s) && Tallied(s) && At(s, i, Debit) && Sound(s.reqs[i])
    ensures Sound(StepDebit(s, i, g, true).reqs[i])
  {
    assert Tally(s.reqs[i]);
  }

  lemma OwnStepStaysSound(s: State, e: Event)
    requires Exclusive(s) && Tallied(s) && Faultless(s) && OwnStep(s, e) && Smooth(s, e)
    ensures Local(s, Step(s, e), e.i) && Sound(Step(s, e).reqs[e.i])
  {
    OwnStepIsLocal(s, e);
    match e {
      case EStatement(i, ok) =>
        match s.reqs[i].pc {
          case RecordKind | Claim | DebitRow | Unclaim => HandlerStaysSound(s, i);
          case Typeset | PruneProofs | MarkReady => BuildStaysSound(s, i, ok);
          case MarkFailed | Reread | LookupPass | Refund | RefundRow => FailureStaysSound(s, i);
          case _ =>
        }
      case EDebit(i, g, ok) => if At(s, i, Debit) { DebitStaysSound(s, i, g); }
      case _ =>
    }
  }

  lemma StepStaysFaultless(s: State, e: Event)
    requires Exclusive(s) && Tallied(s) && Faultless(s) && Smooth(s, e)
    ensures Faultless(Step(s, e))
  {
    if OwnStep(s, e) {
      OwnStepStaysSound(s, e);
    }
  }

  lemma {:induction false} SmoothRunIsFaultless(s: State, events: seq<Event>)
    requires Start(s) && SmoothRun(s, events)
    ensures Faultless(Run(s, events))
  {
    if events != [] {
      var front := events[..|events| - 1];
      SmoothRunIsFaultless(s, front);
      RunKeepsExclusive(s, front);
      RunKeepsTallied(s, front);
      StepStaysFaultless(Run(s, front), events[|events| - 1]);
    }
  }

  lemma SoundAmounts(r: Req, p: int)
    requires Tally(r) && Sound(r)
    ensures Amount(UsedCount, p, r) == Amount(LedgerCount, p, r) + Amount(PausedWrites, p, r)
  {
  }

  /** When no statement fails, builds_used equals debit rows minus refund rows, up to the requests
      paused between their two writes, exactly when no refund met a count of zero. */
  lemma UsedMatchesLedger(s: State, events: seq<Event>, p: int)
    requires Start(s) && SmoothRun(s, events)
    ensures var t := Run(s, events);
      Used(t, p) == Used(s, p) + LedgerSpent(t.ledger, p) + Total(PausedWrites, p, t.reqs) <==>
      Clamps(s, events, p) == 0
  {
    var t := Run(s, events);
    RunBalances(s, events, p);
    RunKeepsTallied(s, events);
    SmoothRunIsFaultless(s, events);
    forall i | 0 <= i < |t.reqs|
      ensures Amount(UsedCount, p, t.reqs[i]) == Amount(LedgerCount, p, t.reqs[i]) + Amount(PausedWrites, p, t.reqs[i])
    {
      assert Tally(t.reqs[i]) && Sound(t.reqs[i]);
      SoundAmounts(t.reqs[i], p);
    }
    TotalSum(UsedCount, LedgerCount, PausedWrites, p, t.reqs);
  }

  lemma SmoothAmounts(r: Req, p: int)
    requires Tally(r) && Sound(r)
    ensures Amount(UsedCount, p, r) == Amount(CreditsHeld, p, r) + Amount(Kept, p, r) - Amount(Invented, p, r)
  {
  }

  lemma {:induction false} SmoothTotals(p: int, reqs: seq<Req>)
    requires forall i :: 0 <= i < |reqs| ==> Tally(reqs[i]) && Sound(reqs[i])
    ensures Total(UsedCount, p, reqs) == Total(CreditsHeld, p, reqs) + Total(Kept, p, reqs) - Total(Invented, p, reqs)
  {
    if reqs != [] {
      SmoothTotals(p, reqs[..|reqs| - 1]);
      SmoothAmounts(reqs[|reqs| - 1], p);
    }
  }

  /** Where a pass's credits are when no statement fails: held by finals under way or delivered, kept
      from failed finals that were never refunded, less what was refunded without a charge and found
      a credit to give back. So the count tells the finals exactly when the last three cancel. */
  lemma SmoothRunCountsFinals(s: State, events: seq<Event>, p: int)
    requires Start(s) && SmoothRun(s, events)
    ensures var t := Run(s, events);
      && Used(t, p) == Used(s, p) + Total(CreditsHeld, p, t.reqs) + Total(Kept, p, t.reqs)
                       - Total(Invented, p, t.reqs) + Clamps(s, events, p)
      && (Used(t, p) == Used(s, p) + Total(CreditsHeld, p, t.reqs) <==>
            Total(Kept, p, t.reqs) + Clamps(s, events, p) == Total(Invented, p, t.reqs))
  {
    var t := Run(s, events);
    RunBalances(s, events, p);
    RunKeepsTallied(s, events);
    SmoothRunIsFaultless(s, events);
    forall i | 0 <= i < |t.reqs| ensures Tally(t.reqs[i]) && Sound(t.reqs[i]) {
    }
    SmoothTotals(p, t.reqs);
  }

  // ----- calm runs ------------------------------------------------------------------------------

  /** From writing build_kind to re-reading it. */
  predicate InWindow(r: Req) {
    r.pc in {Claim, Debit, DebitRow, Typeset, PruneProofs, EpubStage, MarkReady, MarkFailed, Reread}
  }

  /** A final between its look at the pass and the failure handler's. */
  predicate PassMatters(r: Req) {
    r.kind == Final
    && r.pc in {CountBuilds, RecordKind, Claim, Debit, DebitRow, Typeset, PruneProofs, EpubStage, MarkReady, MarkFailed,
                Reread, LookupPass}
  }

  /** No request writes a different build_kind to a book while another request of that book is
      between writing and re-reading it. */
  ghost predicate LeavesKinds(s: State, e: Event) {
    e.EStatement? && At(s, e.i, RecordKind) ==>
      forall j :: 0 <= j < |s.reqs| && j != e.i && InWindow(s.reqs[j]) && s.reqs[j].book == s.reqs[e.i].book
                  ==> s.reqs[j].kind == s.reqs[e.i].kind
  }

  /** No project gets its pass while a final of it is under way. */
  ghost predicate LeavesPasses(s: State, e: Event) {
    e.ENewPass? && e.passOf !in s.passes ==>
      forall j :: 0 <= j < |s.reqs| && PassMatters(s.reqs[j]) ==> s.reqs[j].project != Some(e.passOf)
  }

  /** No statement fails, the process does not die, and no event changes under a request what it
      goes by. */
  ghost predicate Calm(s: State, e: Event) {
    Smooth(s, e) && LeavesKinds(s, e) && LeavesPasses(s, e)
  }

  ghost predicate CalmRun(s: State, events: seq<Event>) {
    events == [] || (CalmRun(s, events[..|events| - 1]) && Calm(Run(s, events[..|events| - 1]), events[|events| - 1]))
  }

  /** In a calm run each request finds its own kind in the row, a final finds a pass exactly when it
      found one before, and nothing has failed. */
  ghost predicate KindKept(s: State) {
    forall i :: 0 <= i < |s.reqs| ==> KeepsKind(s, s.reqs[i])
  }

  ghost predicate KeepsKind(s: State, r: Req) {
    && !r.fault && r.pc !in {Done(Killed), Done(Unrecorded)} && r.book in s.books
    && (InWindow(r) ==> s.books[r.book].buildKind == r.kind)
    && (r.reread.Some? ==> r.reread == Some(r.kind))
    && (PassMatters(r) && r.project.Some? ==> (r.hasPass <==> r.project.value in s.passes))
    && (r.found == Some(true) ==> r.hasPass)
  }

  /** Request i keeps its kind, and the row of its book changes kind only at RecordKind. */
  ghost predicate OwnKind(s: State, t: State, i: nat) {
    && i < |s.reqs| && i < |t.reqs| && s.reqs[i].book in s.books && s.reqs[i].book in t.books
    && KeepsKind(t, t.reqs[i]) && t.passes.Keys == s.passes.Keys
    && t.books[s.reqs[i].book].buildKind
       == if s.reqs[i].pc == RecordKind then s.reqs[i].kind else s.books[s.reqs[i].book].buildKind
  }

  lemma HandlerKeepsKind(s: State, i: nat)
    requires Exclusive(s) && Tallied(s) && i < |s.reqs| && KeepsKind(s, s.reqs[i])
    requires s.reqs[i].pc in {RecordKind, Claim, DebitRow, Unclaim}
    ensures OwnKind(s, StepStatement(s, i, true), i)
  {
    assert Tally(s.reqs[i]);
  }

  lemma BuildKeepsKind(s: State, i: nat, ok: bool)
    requires Exclusive(s) && i < |s.reqs| && KeepsKind(s, s.reqs[i])
    requires s.reqs[i].pc in {Typeset, PruneProofs, MarkReady} && (ok || s.reqs[i].pc == Typeset)
    ensures OwnKind(s, StepStatement(s, i, ok), i)
  {
  }

  lemma FailureKeepsKind(s: State, i: nat)
    requires Exclusive(s) && Tallied(s) && i < |s.reqs| && KeepsKind(s, s.reqs[i])
    requires s.reqs[i].pc in {MarkFailed, Reread, LookupPass, Refund, RefundRow}
    ensures OwnKind(s, StepStatement(s, i, true), i)
  {
    assert Tally(s.reqs[i]) && PassKnown(s, s.reqs[i]);
  }

  lemma AccessKeepsKind(s: State, i: nat, g: bool, refuse: bool)
    requires Exclusive(s) && At(s, i, Access) && KeepsKind(s, s.reqs[i])
    ensures OwnKind(s, StepAccess(s, i, g, refuse, true), i)
  {
  }

  lemma CountKeepsKind(s: State, i: nat, refuse: bool)
    requires Exclusive(s) && At(s, i, CountBuilds) && KeepsKind(s, s.reqs[i])
    ensures OwnKind(s, StepCountBuilds(s, i, refuse, true), i)
  {
  }

  lemma DebitKeepsKind(s: State, i: nat, g: bool)
    requires Exclusive(s) && Tallied(s) && At(s, i, Debit) && KeepsKind(s, s.reqs[i])
    ensures OwnKind(s, StepDebit(s, i, g, true), i)
  {
    assert Tally(s.reqs[i]);
  }

  lemma EpubKeepsKind(s: State, i: nat, stored: bool, ok: bool)
    requires Exclusive(s) && (At(s, i, EpubStage) || (At(s, i, Typeset) && s.reqs[i].format == Epub))
    requires KeepsKind(s, s.reqs[i])
    ensures OwnKind(s, StepEpub(s, i, stored, ok), i)
  {
  }

  lemma EventKeepsKind(s: State, e: Event)
    requires Exclusive(s) && Tallied(s) && OwnStep(s, e) && !e.EStatement? && KeepsKind(s, s.reqs[e.i])
    requires e.EEpub? || e.ok
    ensures OwnKind(s, Step(s, e), e.i) || Step(s, e) == s
  {
    match e {
      case EAccess(i, g, refuse, _) => if At(s, i, Access) { AccessKeepsKind(s, i, g, refuse); }
      case ECountBuilds(i, refuse, _) => if At(s, i, CountBuilds) { CountKeepsKind(s, i, refuse); }
      case EDebit(i, g, _) => if At(s, i, Debit) { DebitKeepsKind(s, i, g); }
      case EEpub(i, stored, ok) =>
        if At(s, i, EpubStage) || (At(s, i, Typeset) && s.reqs[i].format == Epub) {
          EpubKeepsKind(s, i, stored, ok);
        }
    }
  }

  lemma OwnStepKeepsKind(s: State, e: Event)
    requires Exclusive(s) && Tallied(s) && KindKept(s) && OwnStep(s, e) && Calm(s, e)
    ensures OwnKind(s, Step(s, e), e.i) || Step(s, e) == s
  {
    assert KeepsKind(s, s.reqs[e.i]);
    match e {
      case EStatement(i, ok) =>
        match s.reqs[i].pc {
          case RecordKind | Claim | DebitRow | Unclaim => HandlerKeepsKind(s, i);
          case Typeset | PruneProofs | MarkReady => BuildKeepsKind(s, i, ok);
          case MarkFailed | Reread | LookupPass | Refund | RefundRow => FailureKeepsKind(s, i);
          case _ =>
        }
      case _ => EventKeepsKind(s, e);
    }
  }

  lemma StepKeepsKindKept(s: State, e: Event)
    requires Exclusive(s) && Tallied(s) && KindKept(s) && Calm(s, e)
    ensures KindKept(Step(s, e))
  {
    var t := Step(s, e);
    if OwnStep(s, e) && t != s {
      OwnStepKeepsKind(s, e);
      OwnStepIsLocal(s, e);
      forall j | 0 <= j < |t.reqs| ensures KeepsKind(t, t.reqs[j]) {
        if j != e.i {
          assert t.reqs[j] == s.reqs[j] && KeepsKind(s, s.reqs[j]);
          if s.reqs[j].book == s.reqs[e.i].book && s.reqs[e.i].pc == RecordKind && InWindow(s.reqs[j]) {
            assert e.EStatement? && At(s, e.i, RecordKind);
          }
        }
      }
    } else {
      EnvironmentKeepsKind(s, e);
    }
  }

  lemma EnvironmentKeepsKind(s: State, e: Event)
    requires KindKept(s) && Calm(s, e) && (!OwnStep(s, e) || Step(s, e) == s)
    ensures KindKept(Step(s, e))
  {
    var t := Step(s, e);
    forall j | 0 <= j < |t.reqs| ensures KeepsKind(t, t.reqs[j]) {
      assert j < |s.reqs| ==> t.reqs[j] == s.reqs[j] && KeepsKind(s, s.reqs[j]);
    }
  }

  lemma {:induction false} CalmRunKeepsKind(s: State, events: seq<Event>)
    requires Start(s) && CalmRun(s, events)
    ensures KindKept(Run(s, events))
  {
    if events != [] {
      CalmRunKeepsKind(s, events[..|events| - 1]);
      RunKeepsExclusive(s, events[..|events| - 1]);
      RunKeepsTallied(s, events[..|events| - 1]);
      StepKeepsKindKept(Run(s, events[..|events| - 1]), events[|events| - 1]);
    }
  }

  /** In a calm run a request's counters say exactly whether it holds a credit. */
  lemma CalmAmounts(s: State, i: nat, p: int)
    requires Exclusive(s) && Tallied(s) && KindKept(s) && i < |s.reqs|
    ensures Amount(UsedCount, p, s.reqs[i]) == Amount(CreditsHeld, p, s.reqs[i])
    ensures s.reqs[i].pc == Refund ==> Paid(s.reqs[i])
  {
    var r := s.reqs[i];
    assert Tally(r) && PassKnown(s, r) && KeepsKind(s, r);
    if r.hasPass { assert r.project.Some?; }
  }

  lemma HeldCreditIsCounted(s: State, i: nat, p: int)
    requires Exclusive(s) && Tallied(s) && KindKept(s) && At(s, i, Refund) && s.reqs[i].project == Some(p)
    ensures Total(UsedCount, p, s.reqs) >= 1
  {
    forall j | 0 <= j < |s.reqs| ensures Amount(UsedCount, p, s.reqs[j]) >= 0 {
      CalmAmounts(s, j, p);
    }
    CalmAmounts(s, i, p);
    TotalAtLeast(UsedCount, p, s.reqs, i);
  }

  /** In a calm run no refund ever meets a zero count: the credit it returns is there. */
  lemma {:induction false} CalmRunNeverClamps(s: State, events: seq<Event>, p: int)
    requires Start(s) && CalmRun(s, events)
    ensures Clamps(s, events, p) == 0
  {
    if events != [] {
      var front, e := events[..|events| - 1], events[|events| - 1];
      var t := Run(s, front);
      CalmRunNeverClamps(s, front, p);
      RunBalances(s, front, p);
      if MeetsZero(t, e, p) {
        RunKeepsExclusive(s, front);
        RunKeepsTallied(s, front);
        CalmRunKeepsKind(s, front);
        HeldCreditIsCounted(t, e.i, p);
      }
    }
  }

  /** Over every calm run, a pass has lost exactly the credits of its finals that were delivered
      or are still in flight: proofs and failed finals cost nothing, each failed final being
      refunded exactly once. */
  lemma UsedCountsFinals(s: State, events: seq<Event>, p: int)
    requires Start(s) && CalmRun(s, events)
    ensures var t := Run(s, events); Used(t, p) == Used(s, p) + Total(CreditsHeld, p, t.reqs)
  {
    var t := Run(s, events);
    RunBalances(s, events, p);
    CalmRunNeverClamps(s, events, p);
    RunKeepsExclusive(s, events);
    RunKeepsTallied(s, events);
    CalmRunKeepsKind(s, events);
    forall i | 0 <= i < |t.reqs| ensures Amount(UsedCount, p, t.reqs[i]) == Amount(CreditsHeld, p, t.reqs[i]) {
      CalmAmounts(t, i, p);
    }
    TotalSame(UsedCount, CreditsHeld, p, t.reqs, t.reqs);
  }

  lemma {:induction false} CalmRunIsSmooth(s: State, events: seq<Event>)
    requires CalmRun(s, events)
    ensures SmoothRun(s, events)
  {
    if events != [] {
      CalmRunIsSmooth(s, events[..|events| - 1]);
    }
  }

  /** So on calm runs the ledger and builds_used always agree. */
  lemma CalmUsedMatchesLedger(s: State, events: seq<Event>, p: int)
    requires Start(s) && CalmRun(s, events)
    ensures var t := Run(s, events);
      Used(t, p) == Used(s, p) + LedgerSpent(t.ledger, p) + Total(PausedWrites, p, t.reqs)
  {
    CalmRunIsSmooth(s, events);
    CalmRunNeverClamps(s, events, p);
    UsedMatchesLedger(s, events, p);
  }
}
