/** Conservation: where a pass's extras come from, and how often a coupon was redeemed. */
module FulfilmentTotals {
  import opened Options
  import opened Fulfilment
  import opened FulfilmentSafety

  /** The extras of all add-on orders of a pass. */
  function OrderExtras(orders: seq<OrderRow>, pass: nat): Extras {
    if |orders| == 0 then NoExtras()
    else
      var o := orders[|orders| - 1];
      OrderExtras(orders[..|orders| - 1], pass).Plus(
        if o.kind == AddonOrder && o.pass == pass then o.extras else NoExtras())
  }

  /** The extras admins have granted to a pass, with or without the ledger row. */
  function GrantedExtras(grants: seq<Grant>, pass: nat): Extras {
    if |grants| == 0 then NoExtras()
    else
      var g := grants[|grants| - 1];
      GrantedExtras(grants[..|grants| - 1], pass).Plus(if g.pass == pass then g.extras else NoExtras())
  }

  function RedeemedPasses(passes: seq<PassRow>, coupon: int): nat {
    if |passes| == 0 then 0
    else RedeemedPasses(passes[..|passes| - 1], coupon) + if passes[|passes| - 1].coupon == Some(coupon) then 1 else 0
  }

  /** A number of builds, or the index add-on. */
  predicate Grantable(x: Extras) {
    (1 <= x.builds <= GRANT_MAX && x.months == 0 && !x.index) || x == Extras(0, 0, true)
  }

  ghost predicate GrantsPointBack(db: Tables) {
    forall k :: 0 <= k < |db.grants| ==> db.grants[k].pass < |db.passes| && Grantable(db.grants[k].extras)
  }

  ghost predicate ExtrasAddUp(db: Tables) {
    forall p :: 0 <= p < |db.passes| ==>
      db.passes[p].extras == db.passes[p].bought.Plus(OrderExtras(db.orders, p)).Plus(GrantedExtras(db.grants, p))
  }

  ghost predicate CouponsAddUp(db: Tables) {
    && (forall c :: c in db.coupons ==>
          db.coupons[c].redeemed == RedeemedPasses(db.passes, c) <= db.coupons[c].maxRedemptions)
    && (forall p :: 0 <= p < |db.passes| && db.passes[p].coupon.Some? ==> db.passes[p].coupon.value in db.coupons)
  }

  ghost predicate Totals(db: Tables) {
    GrantsPointBack(db) && ExtrasAddUp(db) && CouponsAddUp(db)
  }

  lemma {:induction false} NoOrdersYet(orders: seq<OrderRow>, p: nat)
    requires forall k :: 0 <= k < |orders| ==> orders[k].pass < p
    ensures OrderExtras(orders, p) == NoExtras()
  {
    if |orders| > 0 {
      NoOrdersYet(orders[..|orders| - 1], p);
      assert orders[|orders| - 1].pass != p;
      assert OrderExtras(orders, p) == OrderExtras(orders[..|orders| - 1], p).Plus(NoExtras());
    }
  }

  lemma {:induction false} NoGrantsYet(grants: seq<Grant>, p: nat)
    requires forall k :: 0 <= k < |grants| ==> grants[k].pass < p
    ensures GrantedExtras(grants, p) == NoExtras()
  {
    if |grants| > 0 {
      NoGrantsYet(grants[..|grants| - 1], p);
      var g := grants[|grants| - 1];
      assert g.pass != p;
      assert GrantedExtras(grants, p) == NoExtras().Plus(NoExtras());
    }
  }

  lemma {:induction false} SameCoupons(xs: seq<PassRow>, ys: seq<PassRow>, c: int)
    requires |xs| == |ys| && forall k :: 0 <= k < |xs| ==> xs[k].coupon == ys[k].coupon
    ensures RedeemedPasses(xs, c) == RedeemedPasses(ys, c)
  {
    if xs != [] { SameCoupons(xs[..|xs| - 1], ys[..|ys| - 1], c); }
  }

  lemma {:induction false} NeverRedeemed(passes: seq<PassRow>, c: int)
    requires forall p :: 0 <= p < |passes| ==> passes[p].coupon != Some(c)
    ensures RedeemedPasses(passes, c) == 0
  {
    if |passes| > 0 { NeverRedeemed(passes[..|passes| - 1], c); }
  }

  lemma MintKeepsExtras(db: Tables, session: Option<Sid>, coupon: Option<int>, extras: Extras)
    requires OrdersPointBack(db) && GrantsPointBack(db) && ExtrasAddUp(db)
    ensures var t := Minted(db, session, coupon, extras); GrantsPointBack(t) && ExtrasAddUp(t)
  {
    var t := Minted(db, session, coupon, extras);
    forall p | 0 <= p < |t.passes|
      ensures t.passes[p].extras == t.passes[p].bought.Plus(OrderExtras(t.orders, p)).Plus(GrantedExtras(t.grants, p))
    {
      if p == |db.passes| {
        NoOrdersYet(db.orders, p);
        NoGrantsYet(db.grants, p);
      } else {
        assert t.passes[p] == db.passes[p];
      }
    }
  }

  lemma MintCountsCoupon(db: Tables, session: Option<Sid>, coupon: Option<int>, extras: Extras, c: int)
    ensures RedeemedPasses(Minted(db, session, coupon, extras).passes, c)
         == RedeemedPasses(db.passes, c) + if coupon == Some(c) then 1 else 0
  {
    var t := Minted(db, session, coupon, extras);
    assert t.passes[..|t.passes| - 1] == db.passes;
  }

  lemma PassStepKeepsTotals(db: Tables, session: Option<Sid>, extras: Extras)
    requires OrdersPointBack(db) && Totals(db)
    ensures Totals(Minted(db, session, None, extras))
  {
    MintKeepsExtras(db, session, None, extras);
    forall c { MintCountsCoupon(db, session, None, extras, c); }
  }

  lemma RedeemKeepsTotals(db: Tables, c: int)
    requires OrdersPointBack(db) && Totals(db) && Redeemable(db, c)
    ensures Totals(Redeemed(db, c))
  {
    MintKeepsExtras(db, None, Some(c), NoExtras());
    RedeemCounts(db, c);
  }

  lemma RedeemCounts(db: Tables, c: int)
    requires CouponsAddUp(db) && Redeemable(db, c)
    ensures CouponsAddUp(Redeemed(db, c))
  {
    var t := Redeemed(db, c);
    forall d | d in t.coupons
      ensures t.coupons[d].redeemed == RedeemedPasses(t.passes, d) <= t.coupons[d].maxRedemptions
    {
      MintCountsCoupon(db, None, Some(c), NoExtras(), d);
    }
    forall p | 0 <= p < |t.passes| && t.passes[p].coupon.Some? ensures t.passes[p].coupon.value in t.coupons {
      assert p < |db.passes| ==> t.passes[p] == db.passes[p];
    }
  }

  lemma ExtrasKeepCoupons(db: Tables, p: nat, extras: Extras)
    requires CouponsAddUp(db) && p < |db.passes|
    ensures CouponsAddUp(AddExtras(db, p, extras))
  {
    forall c { SameCoupons(db.passes, AddExtras(db, p, extras).passes, c); }
  }

  /** Extras, with the row that accounts for them in the same transaction. */
  lemma AddonKeepsTotals(db: Tables, p: nat, extras: Extras, o: OrderRow)
    requires OrdersPointBack(db) && Totals(db) && p < |db.passes|
    requires o.kind == AddonOrder && o.pass == p && o.extras == extras
    ensures Totals(AddExtras(db, p, extras).(orders := db.orders + [o]))
  {
    var t := AddExtras(db, p, extras).(orders := db.orders + [o]);
    assert t.orders[..|t.orders| - 1] == db.orders;
    ExtrasKeepCoupons(db, p, extras);
  }

  lemma GrantKeepsTotals(db: Tables, p: nat, extras: Extras)
    requires OrdersPointBack(db) && Totals(db) && Grantable(extras)
    ensures Totals(Granted(db, p, extras))
  {
    if p < |db.passes| {
      var t := Granted(db, p, extras);
      assert t.grants[..|t.grants| - 1] == db.grants;
      ExtrasKeepCoupons(db, p, extras);
    }
  }

  lemma AttachKeepsTotals(db: Tables, project: nat)
    requires OrdersPointBack(db) && Totals(db)
    ensures Totals(Attached(db, project))
  {
    var t := Attached(db, project);
    NoOrdersYet(db.orders, |db.passes|);
    NoGrantsYet(db.grants, |db.passes|);
    assert t.passes[..|t.passes| - 1] == db.passes;
    forall p | 0 <= p < |db.passes| ensures t.passes[p] == db.passes[p] {
    }
  }

  /** The same grants but for their stages. */
  ghost predicate SameGrants(a: seq<Grant>, b: seq<Grant>) {
    |a| == |b| && forall k :: 0 <= k < |a| ==> a[k].pass == b[k].pass && a[k].extras == b[k].extras
  }

  lemma {:induction false} StagesGrantNothing(a: seq<Grant>, b: seq<Grant>, p: nat)
    requires SameGrants(a, b)
    ensures GrantedExtras(a, p) == GrantedExtras(b, p)
  {
    if |a| > 0 {
      StagesGrantNothing(a[..|a| - 1], b[..|b| - 1], p);
    }
  }

  lemma StagesKeepTotals(db: Tables, grants: seq<Grant>)
    requires Totals(db) && SameGrants(db.grants, grants)
    ensures Totals(db.(grants := grants))
  {
    forall p: nat { StagesGrantNothing(db.grants, grants, p); }
  }

  lemma PassOrderKeepsTotals(db: Tables, o: OrderRow)
    requires Totals(db) && o.kind == PassOrder
    ensures Totals(db.(orders := db.orders + [o]))
  {
    assert (db.orders + [o])[..|db.orders|] == db.orders;
  }

  lemma PassTxKeepsTotals(s: State, i: nat, ok: bool, carts: map<Sid, Cart>)
    requires OrdersPointBack(s.db) && Totals(s.db) && i < |s.callers|
    ensures Totals(StepPassTx(s, i, ok, carts).db)
  {
    var sid := s.callers[i].session;
    if sid in carts { PassStepKeepsTotals(s.db, Some(sid), CartExtras(carts[sid].lines)); }
  }

  lemma InsertOrderKeepsTotals(s: State, i: nat, pass: nat, ok: bool)
    requires Totals(s.db) && i < |s.callers|
    ensures Totals(StepInsertOrder(s, i, pass, ok).db)
  {
    PassOrderKeepsTotals(s.db, OrderRow(s.callers[i].session, PassOrder, pass, NoExtras()));
  }

  lemma AddonTxKeepsTotals(s: State, i: nat, pass: int, ok: bool, carts: map<Sid, Cart>)
    requires OrdersPointBack(s.db) && Totals(s.db) && i < |s.callers|
    ensures Totals(StepAddonTx(s, i, pass, ok, carts).db)
  {
    var sid := s.callers[i].session;
    if 0 <= pass < |s.db.passes| && sid in carts {
      var extras := CartExtras(carts[sid].lines);
      AddonKeepsTotals(s.db, pass, extras, OrderRow(sid, AddonOrder, pass, extras));
    }
  }

  lemma CommitKeepsTotals(s: State, i: nat, ok: bool, carts: map<Sid, Cart>)
    requires OrdersPointBack(s.db) && Totals(s.db) && i < |s.callers|
    ensures Totals(StepCommit(s, i, ok, carts).db)
  {
    match s.callers[i].pc {
      case PassTx => PassTxKeepsTotals(s, i, ok, carts);
      case InsertOrder(p) => InsertOrderKeepsTotals(s, i, p, ok);
      case AddonTx(p) => AddonTxKeepsTotals(s, i, p, ok, carts);
      case _ =>
    }
  }

  lemma CouponKeepsTotals(db: Tables, c: int, n: nat)
    requires Totals(db) && c !in db.coupons
    ensures Totals(db.(coupons := db.coupons[c := Coupon(n, 0)]))
  {
    NeverRedeemed(db.passes, c);
  }

  lemma StepKeepsTotals(s: State, e: Event, carts: map<Sid, Cart>)
    requires OrdersPointBack(s.db) && Totals(s.db)
    ensures Totals(Step(s, e, carts).db)
  {
    match e {
      case Commit(i, ok) => if Runs(s, i) { CommitKeepsTotals(s, i, ok, carts); }
      case NewCoupon(c, n) => if c !in s.db.coupons { CouponKeepsTotals(s.db, c, n); }
      case Redeem(c, ok) => if Redeemable(s.db, c) { RedeemKeepsTotals(s.db, c); }
      case AdminFulfil => PassStepKeepsTotals(s.db, None, NoExtras());
      case AttachPass(q) => if Attachable(s.db, q) { AttachKeepsTotals(s.db, q); }
      case GrantBuilds(p, n) => if 1 <= n <= GRANT_MAX { GrantKeepsTotals(s.db, p, Extras(n, 0, false)); }
      case GrantIndex(p) => GrantKeepsTotals(s.db, p, Extras(0, 0, true));
      case GrantRow(_, _) => StagesKeepTotals(s.db, Step(s, e, carts).db.grants);
      case Crash => StagesKeepTotals(s.db, Halted(s.db.grants));
      case NewProject(_) =>
      case _ => assert Step(s, e, carts).db == s.db;
    }
  }

  lemma {:induction false} RunKeepsTotals(events: seq<Event>, carts: map<Sid, Cart>)
    ensures Totals(Run(Empty(), events, carts).db)
  {
    if events != [] {
      RunKeepsTotals(events[..|events| - 1], carts);
      RunKeepsInv(events[..|events| - 1], carts);
      StepKeepsTotals(Run(Empty(), events[..|events| - 1], carts), events[|events| - 1], carts);
    }
  }

  /** Over every run, with crashes anywhere, the extras of a pass are those of its own cart, of the
      add-on orders that exist for it, and of the admin grants: a retried add-on is never applied
      twice, and one without its order row is not applied at all. */
  lemma ExtrasAreAccountedFor(events: seq<Event>, carts: map<Sid, Cart>, p: nat)
    requires p < |Run(Empty(), events, carts).db.passes|
    ensures var db := Run(Empty(), events, carts).db;
      db.passes[p].extras == db.passes[p].bought.Plus(OrderExtras(db.orders, p)).Plus(GrantedExtras(db.grants, p))
  {
    RunKeepsTotals(events, carts);
  }

  // ----- grants and their ledger rows -----------------------------------------------------------------

  /** The extras the ledger rows of admin grants tell of: a number of builds, or the index. */
  function LedgerGrants(grants: seq<Grant>, pass: nat): Extras {
    if |grants| == 0 then NoExtras()
    else
      var g := grants[|grants| - 1];
      LedgerGrants(grants[..|grants| - 1], pass).Plus(
        if g.pass == pass && g.stage == Recorded then g.extras else NoExtras())
  }

  /** Grants of the index to pass p, or of builds. */
  predicate Of(g: Grant, p: nat, index: bool) {
    g.pass == p && g.extras.index == index
  }

  ghost predicate AllRecorded(grants: seq<Grant>, p: nat, index: bool) {
    forall k :: 0 <= k < |grants| && Of(grants[k], p, index) ==> grants[k].stage == Recorded
  }

  ghost predicate HasStage(grants: seq<Grant>, p: nat, index: bool, stage: Stage) {
    exists k :: 0 <= k < |grants| && Of(grants[k], p, index) && grants[k].stage == stage
  }

  lemma {:induction false} LedgerTellsAll(grants: seq<Grant>, p: nat)
    requires forall k :: 0 <= k < |grants| ==> Grantable(grants[k].extras)
    ensures LedgerGrants(grants, p).builds <= GrantedExtras(grants, p).builds
    ensures LedgerGrants(grants, p).months == GrantedExtras(grants, p).months == 0
    ensures LedgerGrants(grants, p).builds == GrantedExtras(grants, p).builds <==> AllRecorded(grants, p, false)
    ensures GrantedExtras(grants, p).index <==> LedgerGrants(grants, p).index || !AllRecorded(grants, p, true)
  {
    if |grants| > 0 {
      var front, g := grants[..|grants| - 1], grants[|grants| - 1];
      LedgerTellsAll(front, p);
      RecordedSnoc(front, g, p, false);
      RecordedSnoc(front, g, p, true);
      assert grants == front + [g] && Grantable(g.extras);
    }
  }

  lemma RecordedSnoc(front: seq<Grant>, g: Grant, p: nat, index: bool)
    ensures AllRecorded(front + [g], p, index) <==>
            AllRecorded(front, p, index) && (Of(g, p, index) ==> g.stage == Recorded)
  {
    var all := front + [g];
    assert all[|front|] == g;
    assert forall k :: 0 <= k < |front| ==> all[k] == front[k];
  }

  /** The step leaves a grant without its ledger row: the row's statement fails, or the process
      dies between the two. */
  ghost predicate StopsGrant(s: State, e: Event, p: nat, index: bool) {
    match e
    case Crash => HasStage(s.db.grants, p, index, Half)
    case GrantRow(k, ok) =>
      !ok && k < |s.db.grants| && Of(s.db.grants[k], p, index) && s.db.grants[k].stage == Half
    case _ => false
  }

  ghost predicate NoGrantStopped(events: seq<Event>, carts: map<Sid, Cart>, p: nat, index: bool) {
    events == [] ||
    (NoGrantStopped(events[..|events| - 1], carts, p, index) &&
     !StopsGrant(Run(Empty(), events[..|events| - 1], carts), events[|events| - 1], p, index))
  }

  lemma OnlyTheseTouchGrants(s: State, e: Event, carts: map<Sid, Cart>)
    requires !e.GrantBuilds? && !e.GrantIndex? && !e.GrantRow? && !e.Crash?
    ensures Step(s, e, carts).db.grants == s.db.grants
  {
    if e.Commit? && Runs(s, e.i) {
      CommitTouchesNoGrant(s, e.i, e.ok, carts);
    }
  }

  lemma CommitTouchesNoGrant(s: State, i: nat, ok: bool, carts: map<Sid, Cart>)
    requires i < |s.callers|
    ensures StepCommit(s, i, ok, carts).db.grants == s.db.grants
  {
    match s.callers[i].pc {
      case PassTx => assert StepCommit(s, i, ok, carts) == StepPassTx(s, i, ok, carts);
      case InsertOrder(p) => assert StepCommit(s, i, ok, carts) == StepInsertOrder(s, i, p, ok);
      case AddonTx(p) => assert StepCommit(s, i, ok, carts) == StepAddonTx(s, i, p, ok, carts);
      case _ =>
    }
  }

  lemma StageStays(before: seq<Grant>, after: seq<Grant>, p: nat, index: bool)
    requires |before| <= |after|
    requires forall k :: 0 <= k < |before| && before[k].stage == Stopped ==> after[k] == before[k]
    ensures HasStage(before, p, index, Stopped) ==> HasStage(after, p, index, Stopped)
  {
    if HasStage(before, p, index, Stopped) {
      var j :| 0 <= j < |before| && Of(before[j], p, index) && before[j].stage == Stopped;
      assert after[j] == before[j];
    }
  }

  lemma RowStops(grants: seq<Grant>, k: nat, ok: bool, p: nat, index: bool)
    requires k < |grants| && grants[k].stage == Half
    ensures var after := grants[k := grants[k].(stage := if ok then Recorded else Stopped)];
      HasStage(after, p, index, Stopped) <==>
      HasStage(grants, p, index, Stopped) || (!ok && Of(grants[k], p, index))
  {
    var after := grants[k := grants[k].(stage := if ok then Recorded else Stopped)];
    StageStays(grants, after, p, index);
    if HasStage(after, p, index, Stopped) {
      var j :| 0 <= j < |after| && Of(after[j], p, index) && after[j].stage == Stopped;
      assert j != k ==> after[j] == grants[j];
    }
    if !ok && Of(grants[k], p, index) {
      assert Of(after[k], p, index) && after[k].stage == Stopped;
    }
  }

  lemma HaltStops(grants: seq<Grant>, p: nat, index: bool)
    ensures HasStage(Halted(grants), p, index, Stopped) <==>
            HasStage(grants, p, index, Stopped) || HasStage(grants, p, index, Half)
  {
    var after := Halted(grants);
    StageStays(grants, after, p, index);
    if HasStage(grants, p, index, Half) {
      var j :| 0 <= j < |grants| && Of(grants[j], p, index) && grants[j].stage == Half;
      assert Of(after[j], p, index) && after[j].stage == Stopped;
    }
    if HasStage(after, p, index, Stopped) {
      var j :| 0 <= j < |after| && Of(after[j], p, index) && after[j].stage == Stopped;
      assert Of(grants[j], p, index) && (grants[j].stage == Stopped || grants[j].stage == Half);
    }
  }

  lemma NewGrantStopsNothing(db: Tables, q: nat, extras: Extras, p: nat, index: bool)
    ensures HasStage(Granted(db, q, extras).grants, p, index, Stopped) <==> HasStage(db.grants, p, index, Stopped)
  {
    var after := Granted(db, q, extras).grants;
    StageStays(db.grants, after, p, index);
    if HasStage(after, p, index, Stopped) {
      var j :| 0 <= j < |after| && Of(after[j], p, index) && after[j].stage == Stopped;
      assert j < |db.grants| && after[j] == db.grants[j];
    }
  }

  lemma StoppedStep(s: State, e: Event, carts: map<Sid, Cart>, p: nat, index: bool)
    ensures HasStage(Step(s, e, carts).db.grants, p, index, Stopped) <==>
            HasStage(s.db.grants, p, index, Stopped) || StopsGrant(s, e, p, index)
  {
    match e {
      case Crash => HaltStops(s.db.grants, p, index);
      case GrantRow(k, ok) =>
        if k < |s.db.grants| && s.db.grants[k].stage == Half { RowStops(s.db.grants, k, ok, p, index); }
      case GrantBuilds(q, n) => NewGrantStopsNothing(s.db, q, Extras(n, 0, false), p, index);
      case GrantIndex(q) => NewGrantStopsNothing(s.db, q, Extras(0, 0, true), p, index);
      case _ => OnlyTheseTouchGrants(s, e, carts);
    }
  }

  /** A grant is without its row for good exactly when some step stopped it. */
  lemma {:induction false} StoppedRuns(events: seq<Event>, carts: map<Sid, Cart>, p: nat, index: bool)
    ensures HasStage(Run(Empty(), events, carts).db.grants, p, index, Stopped) <==>
            !NoGrantStopped(events, carts, p, index)
  {
    if events != [] {
      StoppedRuns(events[..|events| - 1], carts, p, index);
      StoppedStep(Run(Empty(), events[..|events| - 1], carts), events[|events| - 1], carts, p, index);
    }
  }

  lemma RecordedUnless(grants: seq<Grant>, p: nat, index: bool)
    ensures AllRecorded(grants, p, index) <==>
            !HasStage(grants, p, index, Stopped) && !HasStage(grants, p, index, Half)
  {
    if !AllRecorded(grants, p, index) {
      var k :| 0 <= k < |grants| && Of(grants[k], p, index) && grants[k].stage != Recorded;
      assert grants[k].stage == Half || grants[k].stage == Stopped;
    }
  }

  /** What a cart, the orders and the ledger tell of a pass. */
  function Told(db: Tables, p: nat): Extras
    requires p < |db.passes|
  {
    db.passes[p].bought.Plus(OrderExtras(db.orders, p)).Plus(LedgerGrants(db.grants, p))
  }

  /** Every grant of this sort so far has its row. */
  ghost predicate Settled(events: seq<Event>, carts: map<Sid, Cart>, p: nat, index: bool) {
    NoGrantStopped(events, carts, p, index) && !HasStage(Run(Empty(), events, carts).db.grants, p, index, Half)
  }

  /** With the ledger rows in place of the grants, the account of a pass is right exactly when no
      grant of builds was stopped between its two statements and none stands there now, and the same
      goes for the index unless something else tells of it: a second index grant adds nothing. */
  lemma LedgerAccountsForExtras(events: seq<Event>, carts: map<Sid, Cart>, p: nat)
    requires p < |Run(Empty(), events, carts).db.passes|
    ensures var db := Run(Empty(), events, carts).db;
      db.passes[p].extras == Told(db, p) <==>
      Settled(events, carts, p, false) && (Told(db, p).index || Settled(events, carts, p, true))
  {
    var db := Run(Empty(), events, carts).db;
    RunKeepsTotals(events, carts);
    ExtrasAreAccountedFor(events, carts, p);
    LedgerTellsAll(db.grants, p);
    RecordedUnless(db.grants, p, false);
    RecordedUnless(db.grants, p, true);
    StoppedRuns(events, carts, p, false);
    StoppedRuns(events, carts, p, true);
  }

  // One pass made by an admin, and a grant to it up to its first statement.
  function OnePass(extras: Extras, grants: seq<Grant>): State {
    State(Tables(1, [0], [0], [PassRow(None, None, 0, Some(0), extras, NoExtras())], [], grants, map[]), None, [])
  }

  function GrantOf(what: Extras): Event {
    if what.index then GrantIndex(0) else GrantBuilds(0, what.builds)
  }

  lemma AdminMints(carts: map<Sid, Cart>)
    ensures Step(Empty(), AdminFulfil, carts) == OnePass(NoExtras(), [])
  {
    assert Minted(Empty().db, None, None, NoExtras()).passes
        == [PassRow(None, None, 0, Some(0), NoExtras(), NoExtras())];
  }

  lemma FirstGrant(what: Extras)
    ensures Granted(OnePass(NoExtras(), []).db, 0, what) == OnePass(what, [Grant(0, what, Half)]).db
  {
    assert NoExtras().Plus(what) == what;
    assert [] + [Grant(0, what, Half)] == [Grant(0, what, Half)];
    var row := PassRow(None, None, 0, Some(0), NoExtras(), NoExtras());
    assert [row][0 := row.(extras := what)] == [row.(extras := what)];
  }

  lemma GrantAdds(what: Extras, carts: map<Sid, Cart>)
    requires Grantable(what)
    ensures Step(OnePass(NoExtras(), []), GrantOf(what), carts) == OnePass(what, [Grant(0, what, Half)])
  {
    FirstGrant(what);
    assert what == if what.index then Extras(0, 0, true) else Extras(what.builds, 0, false);
  }

  lemma GrantOpens(what: Extras, carts: map<Sid, Cart>)
    requires Grantable(what)
    ensures Run(Empty(), [AdminFulfil, GrantOf(what)], carts) == OnePass(what, [Grant(0, what, Half)])
  {
    var a, b := AdminFulfil, GrantOf(what);
    RunSnoc(Empty(), [], a, carts);
    RunSnoc(Empty(), [a], b, carts);
    assert [] + [a] == [a] && [a] + [b] == [a, b];
    AdminMints(carts);
    GrantAdds(what, carts);
  }

  lemma CrashHalts(what: Extras, carts: map<Sid, Cart>)
    ensures Step(OnePass(what, [Grant(0, what, Half)]), Crash, carts) == OnePass(what, [Grant(0, what, Stopped)])
  {
    assert Halted([Grant(0, what, Half)]) == [Grant(0, what, Stopped)];
  }

  /** A grant of either sort stopped between its statements: the pass keeps what no row tells of. */
  lemma GrantCanLoseItsRow(what: Extras, carts: map<Sid, Cart>)
    requires Grantable(what)
    ensures var db := Run(Empty(), [AdminFulfil, GrantOf(what), Crash], carts).db;
      |db.passes| == 1 && db.passes[0].extras == what && Told(db, 0) == NoExtras()
  {
    var open := [AdminFulfil, GrantOf(what)];
    RunSnoc(Empty(), open, Crash, carts);
    assert open + [Crash] == [AdminFulfil, GrantOf(what), Crash];
    GrantOpens(what, carts);
    CrashHalts(what, carts);
    var grants := [Grant(0, what, Stopped)];
    assert grants[..0] == [] && NoExtras().Plus(NoExtras()) == NoExtras();
    assert LedgerGrants(grants, 0) == LedgerGrants([], 0).Plus(NoExtras());
  }

  /** A coupon's count is the number of passes made with it, and never passes its limit. */
  lemma CouponsNeverOverRedeemed(events: seq<Event>, carts: map<Sid, Cart>, c: int)
    requires c in Run(Empty(), events, carts).db.coupons
    ensures var db := Run(Empty(), events, carts).db;
      db.coupons[c].redeemed == RedeemedPasses(db.passes, c) <= db.coupons[c].maxRedemptions
  {
    RunKeepsTotals(events, carts);
  }

  /** An add-on order carries exactly what its cart was charged for. */
  ghost predicate OrdersMatchCarts(db: Tables, carts: map<Sid, Cart>) {
    && (forall k :: 0 <= k < |db.orders| && db.orders[k].kind == AddonOrder ==>
          db.orders[k].session in carts && db.orders[k].extras == CartExtras(carts[db.orders[k].session].lines)
          && carts[db.orders[k].session].meta == MetaAddon(db.orders[k].pass))
    && (forall p :: 0 <= p < |db.passes| ==>
          match db.passes[p].session
          case Some(sid) => sid in carts && db.passes[p].bought == CartExtras(carts[sid].lines)
          case None => db.passes[p].bought == NoExtras())
  }

  ghost predicate CallersMatchCarts(s: State, carts: map<Sid, Cart>) {
    forall i :: 0 <= i < |s.callers| && s.callers[i].pc.AddonTx? ==>
      s.callers[i].session in carts && carts[s.callers[i].session].meta == MetaAddon(s.callers[i].pc.passId)
  }

  lemma {:induction false} EachOrderIsItsCart(events: seq<Event>, carts: map<Sid, Cart>)
    ensures OrdersMatchCarts(Run(Empty(), events, carts).db, carts)
    ensures CallersMatchCarts(Run(Empty(), events, carts), carts)
  {
    if events != [] {
      EachOrderIsItsCart(events[..|events| - 1], carts);
      StepKeepsMatch(Run(Empty(), events[..|events| - 1], carts), events[|events| - 1], carts);
    }
  }

  lemma StepKeepsMatch(s: State, e: Event, carts: map<Sid, Cart>)
    requires OrdersMatchCarts(s.db, carts) && CallersMatchCarts(s, carts)
    ensures OrdersMatchCarts(Step(s, e, carts).db, carts) && CallersMatchCarts(Step(s, e, carts), carts)
  {
    if e.Commit? {
      if Runs(s, e.i) {
        CommitKeepsMatch(s, e.i, e.ok, carts);
      }
    } else {
      OtherKeepsMatch(s, e, carts);
    }
  }

  lemma CommitKeepsMatch(s: State, i: nat, ok: bool, carts: map<Sid, Cart>)
    requires OrdersMatchCarts(s.db, carts) && CallersMatchCarts(s, carts) && Runs(s, i)
    ensures OrdersMatchCarts(StepCommit(s, i, ok, carts).db, carts)
    ensures CallersMatchCarts(StepCommit(s, i, ok, carts), carts)
  {
    match s.callers[i].pc {
      case PassTx => assert StepCommit(s, i, ok, carts) == StepPassTx(s, i, ok, carts);
      case InsertOrder(p) => assert StepCommit(s, i, ok, carts) == StepInsertOrder(s, i, p, ok);
      case AddonTx(p) => assert StepCommit(s, i, ok, carts) == StepAddonTx(s, i, p, ok, carts);
      case _ =>
    }
  }

  lemma OtherKeepsMatch(s: State, e: Event, carts: map<Sid, Cart>)
    requires OrdersMatchCarts(s.db, carts) && CallersMatchCarts(s, carts) && !e.Commit?
    ensures OrdersMatchCarts(Step(s, e, carts).db, carts) && CallersMatchCarts(Step(s, e, carts), carts)
  {
  }
}
