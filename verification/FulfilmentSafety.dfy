/** What every run of fulfilment keeps, with crashes and failed statements at any step. */
module FulfilmentSafety {
  import opened Options
  import opened Fulfilment

  /** Exactly the caller that holds the mutex is between lock and unlock. */
  ghost predicate Locked(s: State) {
    && (s.mutex.Some? ==> s.mutex.value < |s.callers|)
    && forall i :: 0 <= i < |s.callers| ==>
      ((s.callers[i].pc != Waiting && !s.callers[i].pc.Finished?) <==> s.mutex == Some(i))
  }

  ghost predicate UniqueSessions(db: Tables) {
    && (forall i, j :: 0 <= i < j < |db.passes| && db.passes[i].session.Some? ==>
          db.passes[i].session != db.passes[j].session)
    && (forall i, j :: 0 <= i < j < |db.orders| ==> db.orders[i].session != db.orders[j].session)
  }

  /** Each pass stands alone on its project; one that fulfillPass made, as all paid ones are, has a
      client and a transmittal of its own with it, and no client or transmittal is without a pass. */
  ghost predicate Complete(db: Tables) {
    && |db.transmittals| == db.clients
    && (forall q :: 0 <= q < |db.projects| ==> db.projects[q] < db.clients)
    && (forall i :: 0 <= i < |db.passes| ==> Whole(db, db.passes[i]))
    && (forall i, j :: 0 <= i < j < |db.passes| ==> db.passes[i].project != db.passes[j].project)
    && (forall c :: 0 <= c < db.clients ==> HasPassOf(db.passes, c))
  }

  predicate Whole(db: Tables, p: PassRow) {
    && p.project < |db.projects|
    && (p.session.Some? || p.coupon.Some? ==> p.made.Some?)
    && (p.made.Some? ==>
          p.made.value < db.clients == |db.transmittals| && db.projects[p.project] == p.made.value
          && db.transmittals[p.made.value] == p.project)
  }

  ghost predicate HasPassOf(passes: seq<PassRow>, client: nat) {
    exists i :: 0 <= i < |passes| && passes[i].made == Some(client)
  }

  lemma OnePassMore(passes: seq<PassRow>, p: PassRow)
    ensures forall c: nat :: HasPassOf(passes + [p], c) <==> HasPassOf(passes, c) || p.made == Some(c)
  {
    var all := passes + [p];
    forall c: nat ensures HasPassOf(all, c) <==> HasPassOf(passes, c) || p.made == Some(c) {
      if HasPassOf(passes, c) {
        var i :| 0 <= i < |passes| && passes[i].made == Some(c);
        assert all[i] == passes[i];
      }
      assert all[|passes|] == p;
      if HasPassOf(all, c) && p.made != Some(c) {
        var i :| 0 <= i < |all| && all[i].made == Some(c);
        assert passes[i] == all[i];
      }
    }
  }

  lemma MintKeepsComplete(db: Tables, session: Option<Sid>, coupon: Option<int>, extras: Extras)
    requires Complete(db)
    ensures Complete(Minted(db, session, coupon, extras))
  {
    var t := Minted(db, session, coupon, extras);
    OnePassMore(db.passes, t.passes[|db.passes|]);
    forall i | 0 <= i < |t.passes| ensures Whole(t, t.passes[i]) {
      assert i < |db.passes| ==> t.passes[i] == db.passes[i] && Whole(db, db.passes[i]);
    }
    forall i | 0 <= i < |db.passes| ensures t.passes[i].project != t.passes[|db.passes|].project {
      assert t.passes[i] == db.passes[i] && Whole(db, db.passes[i]);
    }
  }

  lemma AttachKeepsComplete(db: Tables, project: nat)
    requires Complete(db) && Attachable(db, project)
    ensures Complete(Attached(db, project))
  {
    var t := Attached(db, project);
    OnePassMore(db.passes, t.passes[|db.passes|]);
    forall i | 0 <= i < |t.passes| ensures Whole(t, t.passes[i]) {
      assert i < |db.passes| ==> t.passes[i] == db.passes[i] && Whole(db, db.passes[i]);
    }
  }

  lemma ExtrasKeepComplete(db: Tables, p: nat, extras: Extras)
    requires Complete(db) && p < |db.passes|
    ensures Complete(AddExtras(db, p, extras))
  {
    var t := AddExtras(db, p, extras);
    forall i | 0 <= i < |t.passes| ensures Whole(t, t.passes[i]) && t.passes[i].made == db.passes[i].made {
      assert Whole(db, db.passes[i]);
    }
    forall c | 0 <= c < t.clients ensures HasPassOf(t.passes, c) {
      assert HasPassOf(db.passes, c);
      var i :| 0 <= i < |db.passes| && db.passes[i].made == Some(c);
      assert t.passes[i].made == Some(c);
    }
  }

  /** Complete speaks of four tables. */
  lemma SameKeepsComplete(db: Tables, t: Tables)
    requires Complete(db) && t.clients == db.clients && t.projects == db.projects
    requires t.transmittals == db.transmittals && t.passes == db.passes
    ensures Complete(t)
  {
    forall i | 0 <= i < |t.passes| ensures Whole(t, t.passes[i]) {
      assert Whole(db, db.passes[i]);
    }
  }

  lemma ProjectKeepsComplete(db: Tables, client: nat)
    requires Complete(db) && client < db.clients
    ensures Complete(db.(projects := db.projects + [client]))
  {
    var t := db.(projects := db.projects + [client]);
    forall i | 0 <= i < |t.passes| ensures Whole(t, t.passes[i]) {
      assert Whole(db, db.passes[i]);
    }
  }

  ghost predicate OrdersPointBack(db: Tables) {
    forall i :: 0 <= i < |db.orders| ==>
      && db.orders[i].pass < |db.passes|
      && (db.orders[i].kind == PassOrder ==> db.passes[db.orders[i].pass].session == Some(db.orders[i].session))
  }

  /** A caller between the two commits has stamped its pass. */
  ghost predicate BetweenCommits(s: State) {
    forall i :: 0 <= i < |s.callers| && s.callers[i].pc.InsertOrder? ==>
      s.callers[i].pc.pass < |s.db.passes|
      && s.db.passes[s.callers[i].pc.pass].session == Some(s.callers[i].session)
  }

  /** A fresh result has its order, and no two callers have one for the same session. */
  ghost predicate FreshOnce(s: State) {
    && (forall i :: 0 <= i < |s.callers| && s.callers[i].pc == Finished(Fresh) ==> Ordered(s.db, s.callers[i].session))
    && (forall i, j :: 0 <= i < j < |s.callers| && s.callers[i].pc == s.callers[j].pc == Finished(Fresh)
          ==> s.callers[i].session != s.callers[j].session)
  }

  ghost predicate Inv(s: State) {
    Locked(s) && UniqueSessions(s.db) && Complete(s.db) && OrdersPointBack(s.db) && BetweenCommits(s) && FreshOnce(s)
  }

  lemma PassTxKeepsInv(s: State, i: nat, ok: bool, carts: map<Sid, Cart>)
    requires Inv(s) && Runs(s, i) && s.callers[i].pc == PassTx
    ensures Inv(StepPassTx(s, i, ok, carts))
  {
    var sid := s.callers[i].session;
    if sid in carts { MintKeepsComplete(s.db, Some(sid), None, CartExtras(carts[sid].lines)); }
  }

  lemma InsertOrderKeepsInv(s: State, i: nat, ok: bool)
    requires Inv(s) && Runs(s, i) && s.callers[i].pc.InsertOrder?
    ensures Inv(StepInsertOrder(s, i, s.callers[i].pc.pass, ok))
  {
    var t := StepInsertOrder(s, i, s.callers[i].pc.pass, ok);
    SameKeepsComplete(s.db, t.db);
    assert t.callers[i].pc == Finished(Fresh) ==> t.db.orders[|s.db.orders|].session == s.callers[i].session;
    NewOrderIsFresh(s, t, i);
  }

  lemma AddonKeepsComplete(s: State, i: nat, pass: int, ok: bool, carts: map<Sid, Cart>)
    requires Complete(s.db) && i < |s.callers|
    ensures Complete(StepAddonTx(s, i, pass, ok, carts).db)
  {
    var sid := s.callers[i].session;
    if 0 <= pass < |s.db.passes| && sid in carts {
      ExtrasKeepComplete(s.db, pass, CartExtras(carts[sid].lines));
      var t := StepAddonTx(s, i, pass, ok, carts).db;
      if t != s.db { SameKeepsComplete(AddExtras(s.db, pass, CartExtras(carts[sid].lines)), t); }
    }
  }

  lemma AddonTxKeepsInv(s: State, i: nat, ok: bool, carts: map<Sid, Cart>)
    requires Inv(s) && Runs(s, i) && s.callers[i].pc.AddonTx?
    ensures Inv(StepAddonTx(s, i, s.callers[i].pc.passId, ok, carts))
  {
    var t := StepAddonTx(s, i, s.callers[i].pc.passId, ok, carts);
    AddonKeepsComplete(s, i, s.callers[i].pc.passId, ok, carts);
    assert t.callers[i].pc == Finished(Fresh) ==> t.db.orders[|s.db.orders|].session == s.callers[i].session;
    NewOrderIsFresh(s, t, i);
  }

  /** A caller becomes fresh only by inserting the first order of its session. */
  lemma NewOrderIsFresh(s: State, t: State, i: nat)
    requires FreshOnce(s) && i < |s.callers| && !s.callers[i].pc.Finished?
    requires |t.callers| == |s.callers| && t.callers == s.callers[i := t.callers[i]]
    requires t.callers[i].session == s.callers[i].session
    requires s.db.orders <= t.db.orders
    requires t.callers[i].pc == Finished(Fresh) ==>
      !Ordered(s.db, s.callers[i].session) && Ordered(t.db, s.callers[i].session)
    ensures FreshOnce(t)
  {
    forall j | 0 <= j < |t.callers| && t.callers[j].pc == Finished(Fresh)
      ensures Ordered(t.db, t.callers[j].session)
      ensures j != i && t.callers[i].pc == Finished(Fresh) ==> t.callers[j].session != t.callers[i].session
    {
      if j != i {
        assert t.callers[j] == s.callers[j] && Ordered(s.db, s.callers[j].session);
        var k :| 0 <= k < |s.db.orders| && s.db.orders[k].session == s.callers[j].session;
        assert t.db.orders[k] == s.db.orders[k];
      }
    }
  }

  /** Steps that only move callers: none becomes fresh, none gets between the commits. */
  predicate OnlyMoves(e: Event) {
    e.Call? || e.Lock? || e.Check? || e.FetchSession?
  }

  lemma ReadKeepsInv(s: State, e: Event, carts: map<Sid, Cart>)
    requires Inv(s) && OnlyMoves(e)
    ensures Inv(Step(s, e, carts))
  {
    var t := Step(s, e, carts);
    assert t.db == s.db;
    forall j | 0 <= j < |t.callers|
      ensures t.callers[j].pc.InsertOrder? || t.callers[j].pc == Finished(Fresh) ==>
                j < |s.callers| && t.callers[j] == s.callers[j]
      ensures (t.callers[j].pc != Waiting && !t.callers[j].pc.Finished?) <==> t.mutex == Some(j)
    {
    }
  }

  lemma CrashKeepsInv(s: State, carts: map<Sid, Cart>)
    requires Inv(s)
    ensures Inv(Step(s, Crash, carts))
  {
    var t := Step(s, Crash, carts);
    SameKeepsComplete(s.db, t.db);
    assert t.db.passes == s.db.passes && t.db.orders == s.db.orders;
    forall j | 0 <= j < |t.callers|
      ensures t.callers[j].pc.Finished? && (t.callers[j].pc == Finished(Fresh) ==> t.callers[j] == s.callers[j])
    {
    }
  }

  /** What admins and the portal do. */
  predicate Hands(e: Event) {
    e.AdminFulfil? || e.NewProject? || e.AttachPass? || e.GrantBuilds? || e.GrantIndex? || e.GrantRow?
  }

  lemma RedeemKeepsComplete(db: Tables, c: int)
    requires Complete(db) && c in db.coupons
    ensures Complete(Redeemed(db, c))
  {
    MintKeepsComplete(db, None, Some(c), NoExtras());
    SameKeepsComplete(Minted(db, None, Some(c), NoExtras()), Redeemed(db, c));
  }

  lemma GrantKeepsComplete(db: Tables, p: nat, extras: Extras)
    requires Complete(db)
    ensures Complete(Granted(db, p, extras))
  {
    if p < |db.passes| {
      ExtrasKeepComplete(db, p, extras);
      SameKeepsComplete(AddExtras(db, p, extras), Granted(db, p, extras));
    }
  }

  lemma TablesKeepComplete(s: State, e: Event, carts: map<Sid, Cart>)
    requires Complete(s.db) && (e.NewCoupon? || e.Redeem? || Hands(e))
    ensures Complete(Step(s, e, carts).db)
  {
    match e {
      case Redeem(c, _) => if Redeemable(s.db, c) { RedeemKeepsComplete(s.db, c); }
      case AdminFulfil => MintKeepsComplete(s.db, None, None, NoExtras());
      case NewProject(c) => if c < s.db.clients { ProjectKeepsComplete(s.db, c); }
      case AttachPass(q) => if Attachable(s.db, q) { AttachKeepsComplete(s.db, q); }
      case GrantBuilds(p, n) => GrantKeepsComplete(s.db, p, Extras(n, 0, false));
      case GrantIndex(p) => GrantKeepsComplete(s.db, p, Extras(0, 0, true));
      case _ => SameKeepsComplete(s.db, Step(s, e, carts).db);
    }
  }

  lemma TablesKeepInv(s: State, e: Event, carts: map<Sid, Cart>)
    requires Inv(s) && (e.NewCoupon? || e.Redeem? || Hands(e))
    ensures Inv(Step(s, e, carts))
  {
    assert Step(s, e, carts).callers == s.callers && Step(s, e, carts).db.orders == s.db.orders;
    TablesKeepComplete(s, e, carts);
  }

  lemma StepKeepsInv(s: State, e: Event, carts: map<Sid, Cart>)
    requires Inv(s)
    ensures Inv(Step(s, e, carts))
  {
    match e {
      case Commit(i, ok) =>
        if Runs(s, i) {
          match s.callers[i].pc {
            case PassTx => PassTxKeepsInv(s, i, ok, carts);
            case InsertOrder(_) => InsertOrderKeepsInv(s, i, ok);
            case AddonTx(_) => AddonTxKeepsInv(s, i, ok, carts);
            case _ =>
          }
        }
      case NewCoupon(_, _) => TablesKeepInv(s, e, carts);
      case Redeem(_, _) => TablesKeepInv(s, e, carts);
      case AdminFulfil => TablesKeepInv(s, e, carts);
      case NewProject(_) => TablesKeepInv(s, e, carts);
      case AttachPass(_) => TablesKeepInv(s, e, carts);
      case GrantBuilds(_, _) => TablesKeepInv(s, e, carts);
      case GrantIndex(_) => TablesKeepInv(s, e, carts);
      case GrantRow(_, _) => TablesKeepInv(s, e, carts);
      case Crash => CrashKeepsInv(s, carts);
      case _ => ReadKeepsInv(s, e, carts);
    }
  }

  lemma {:induction false} RunKeepsInv(events: seq<Event>, carts: map<Sid, Cart>)
    ensures Inv(Run(Empty(), events, carts))
  {
    if events != [] {
      RunKeepsInv(events[..|events| - 1], carts);
      StepKeepsInv(Run(Empty(), events[..|events| - 1], carts), events[|events| - 1], carts);
    }
  }

  /** On every run a session has at most one pass and at most one fresh result; a pass always
      comes with its own client, project and transmittal. */
  lemma AtMostOnce(events: seq<Event>, carts: map<Sid, Cart>)
    ensures var t := Run(Empty(), events, carts);
      && (forall i, j :: 0 <= i < j < |t.db.passes| && t.db.passes[i].session.Some? ==>
            t.db.passes[i].session != t.db.passes[j].session)
      && (forall i, j :: 0 <= i < j < |t.callers| && t.callers[i].pc == t.callers[j].pc == Finished(Fresh) ==>
            t.callers[i].session != t.callers[j].session)
      && Complete(t.db)
  {
    RunKeepsInv(events, carts);
  }

  // ----- between the two commits of the pass path ------------------------------------------------

  /** Some caller is about to insert the order row of this session. */
  ghost predicate Inserting(s: State, sid: Sid) {
    exists i :: 0 <= i < |s.callers| && s.callers[i].session == sid && s.callers[i].pc.InsertOrder?
  }

  /** The pass is paid for and stamped, its order row is missing, and nobody is about to write it. */
  ghost predicate Wedged(s: State, sid: Sid) {
    StampedBy(s.db, sid) && !Ordered(s.db, sid) && !Inserting(s, sid)
  }

  predicate IsPassSession(carts: map<Sid, Cart>, sid: Sid) {
    sid in carts && NextStep(carts[sid]) == PassTx
  }

  /** No caller of this session is in the add-on transaction. */
  ghost predicate NotAddon(s: State, sid: Sid) {
    forall i :: 0 <= i < |s.callers| && s.callers[i].session == sid ==> !s.callers[i].pc.AddonTx?
  }

  ghost predicate PassOrdersOnly(s: State, sid: Sid) {
    && NotAddon(s, sid)
    && (forall k :: 0 <= k < |s.db.orders| && s.db.orders[k].session == sid ==> s.db.orders[k].kind == PassOrder)
    && (Inserting(s, sid) ==> !Ordered(s.db, sid))
  }

  lemma OrderedIsStamped(s: State, sid: Sid)
    requires Inv(s) && PassOrdersOnly(s, sid) && Ordered(s.db, sid)
    ensures StampedBy(s.db, sid)
  {
    var k :| 0 <= k < |s.db.orders| && s.db.orders[k].session == sid;
    assert s.db.passes[s.db.orders[k].pass].session == Some(sid);
  }

  /** This commit stamps a pass with sid, or inserts the order of sid. */
  predicate Stamps(s: State, i: nat, ok: bool, carts: map<Sid, Cart>, sid: Sid) {
    && i < |s.callers| && s.callers[i].session == sid && s.callers[i].pc == PassTx
    && ok && sid in carts && !StampedBy(s.db, sid)
  }

  predicate Orders(s: State, t: State, i: nat, sid: Sid) {
    i < |s.callers| == |t.callers| && s.callers[i].session == sid
    && t.callers[i].pc == Finished(Fresh) != s.callers[i].pc
  }

  /** The effect of a caller's own commit, as seen from one session. */
  lemma CommitAndSession(s: State, i: nat, ok: bool, carts: map<Sid, Cart>, sid: Sid)
    requires Inv(s) && Runs(s, i)
    ensures var t := StepCommit(s, i, ok, carts);
      && (StampedBy(t.db, sid) <==> StampedBy(s.db, sid) || Stamps(s, i, ok, carts, sid))
      && (Ordered(t.db, sid) <==> Ordered(s.db, sid) || Orders(s, t, i, sid))
      && t.callers == s.callers[i := t.callers[i]]
      && t.callers[i].session == s.callers[i].session && !t.callers[i].pc.AddonTx?
      && (t.callers[i].pc.InsertOrder? <==> Stamps(s, i, ok, carts, s.callers[i].session))
      && NewOrders(s, t, i)
  {
    var t := StepCommit(s, i, ok, carts);
    CommitMovesCaller(s, i, ok, carts);
    CommitInsertsRows(s, i, ok, carts);
    if StampedBy(s.db, sid) {
      var k :| 0 <= k < |s.db.passes| && s.db.passes[k].session == Some(sid);
      assert t.db.passes[k].session == Some(sid);
    }
    if |t.db.passes| > |s.db.passes| {
      assert t.db.passes[|s.db.passes|].session == Some(s.callers[i].session);
    }
    if Ordered(s.db, sid) {
      var k :| 0 <= k < |s.db.orders| && s.db.orders[k].session == sid;
      assert t.db.orders[k] == s.db.orders[k];
    }
    if |t.db.orders| > |s.db.orders| {
      assert t.db.orders[|s.db.orders|].session == s.callers[i].session;
    }
  }

  /** At most one order row is added, for the caller's session. */
  ghost predicate NewOrders(s: State, t: State, i: nat) {
    && i < |s.callers| && i < |t.callers| && s.db.orders <= t.db.orders && |t.db.orders| <= |s.db.orders| + 1
    && (|t.db.orders| > |s.db.orders| <==> t.callers[i].pc == Finished(Fresh) != s.callers[i].pc)
    && forall k :: |s.db.orders| <= k < |t.db.orders| ==>
         t.db.orders[k].session == s.callers[i].session
         && (t.db.orders[k].kind == AddonOrder ==> s.callers[i].pc.AddonTx?)
  }

  lemma CommitMovesCaller(s: State, i: nat, ok: bool, carts: map<Sid, Cart>)
    requires Inv(s) && Runs(s, i)
    ensures var t := StepCommit(s, i, ok, carts);
      && |t.callers| == |s.callers| && t.callers == s.callers[i := t.callers[i]]
      && t.callers[i].session == s.callers[i].session && !t.callers[i].pc.AddonTx?
      && (t.callers[i].pc.InsertOrder? <==> Stamps(s, i, ok, carts, s.callers[i].session))
  {
    assert s.callers == s.callers[i := s.callers[i]];
  }

  lemma CommitInsertsRows(s: State, i: nat, ok: bool, carts: map<Sid, Cart>)
    requires Inv(s) && Runs(s, i)
    ensures var t := StepCommit(s, i, ok, carts);
      && NewOrders(s, t, i)
      && |s.db.passes| <= |t.db.passes| <= |s.db.passes| + 1
      && (|t.db.passes| > |s.db.passes| <==> Stamps(s, i, ok, carts, s.callers[i].session))
      && (forall k :: 0 <= k < |s.db.passes| ==> t.db.passes[k].session == s.db.passes[k].session)
      && (|t.db.passes| > |s.db.passes| ==> t.db.passes[|s.db.passes|].session == Some(s.callers[i].session))
  {
  }

  lemma StampsStay(db: Tables, after: Tables, sid: Sid)
    requires |db.passes| <= |after.passes|
    requires forall k :: 0 <= k < |db.passes| ==> after.passes[k].session == db.passes[k].session
    requires forall k :: |db.passes| <= k < |after.passes| ==> after.passes[k].session == None
    ensures StampedBy(after, sid) <==> StampedBy(db, sid)
  {
    if StampedBy(db, sid) {
      var k :| 0 <= k < |db.passes| && db.passes[k].session == Some(sid);
      assert after.passes[k].session == Some(sid);
    }
  }

  lemma MovesKeepInserting(s: State, e: Event, carts: map<Sid, Cart>, sid: Sid)
    requires OnlyMoves(e)
    ensures Step(s, e, carts).db == s.db
    ensures Inserting(Step(s, e, carts), sid) <==> Inserting(s, sid)
  {
    var t := Step(s, e, carts);
    if Inserting(s, sid) {
      var k :| 0 <= k < |s.callers| && s.callers[k].session == sid && s.callers[k].pc.InsertOrder?;
      assert t.callers[k] == s.callers[k];
    }
  }

  lemma MovesKeepNotAddon(s: State, e: Event, carts: map<Sid, Cart>, sid: Sid)
    requires OnlyMoves(e) && IsPassSession(carts, sid) && NotAddon(s, sid)
    ensures NotAddon(Step(s, e, carts), sid)
  {
  }

  lemma MovesAndSession(s: State, e: Event, carts: map<Sid, Cart>, sid: Sid)
    requires OnlyMoves(e)
    ensures var t := Step(s, e, carts);
      && t.db == s.db
      && (Inserting(t, sid) <==> Inserting(s, sid))
      && (IsPassSession(carts, sid) && NotAddon(s, sid) ==> NotAddon(t, sid))
  {
    MovesKeepInserting(s, e, carts, sid);
    if IsPassSession(carts, sid) && NotAddon(s, sid) {
      MovesKeepNotAddon(s, e, carts, sid);
    }
  }

  lemma TablesAndSession(s: State, e: Event, carts: map<Sid, Cart>, sid: Sid)
    requires Inv(s) && (e.NewCoupon? || e.Redeem? || Hands(e))
    ensures var t := Step(s, e, carts);
      (StampedBy(t.db, sid) <==> StampedBy(s.db, sid)) && t.db.orders == s.db.orders && t.callers == s.callers
  {
    StampsStay(s.db, Step(s, e, carts).db, sid);
  }

  lemma OtherAndSession(s: State, e: Event, carts: map<Sid, Cart>, sid: Sid)
    requires Inv(s) && !(e.Commit? && Runs(s, e.i))
    ensures var t := Step(s, e, carts);
      && (StampedBy(t.db, sid) <==> StampedBy(s.db, sid))
      && t.db.orders == s.db.orders
      && (Inserting(t, sid) <==> Inserting(s, sid) && !e.Crash?)
      && (IsPassSession(carts, sid) && NotAddon(s, sid) ==> NotAddon(t, sid))
  {
    if OnlyMoves(e) {
      MovesAndSession(s, e, carts, sid);
    } else if !e.Commit? && !e.Crash? {
      TablesAndSession(s, e, carts, sid);
    }
  }

  lemma StepKeepsPassOrdersOnly(s: State, e: Event, carts: map<Sid, Cart>, sid: Sid)
    requires Inv(s) && IsPassSession(carts, sid) && PassOrdersOnly(s, sid)
    ensures PassOrdersOnly(Step(s, e, carts), sid)
  {
    var t := Step(s, e, carts);
    if e.Commit? && Runs(s, e.i) {
      CommitAndSession(s, e.i, e.ok, carts, sid);
      forall k | 0 <= k < |t.db.orders| && t.db.orders[k].session == sid ensures t.db.orders[k].kind == PassOrder {
        assert k < |s.db.orders| ==> t.db.orders[k] == s.db.orders[k];
      }
      if Inserting(t, sid) {
        var j :| 0 <= j < |t.callers| && t.callers[j].session == sid && t.callers[j].pc.InsertOrder?;
        if j == e.i {
          assert !StampedBy(s.db, sid);
          if Ordered(s.db, sid) { OrderedIsStamped(s, sid); }
        } else {
          assert t.callers[j] == s.callers[j];
        }
      }
    } else {
      OtherAndSession(s, e, carts, sid);
    }
  }

  /** The moment a session is wedged: the caller that has just committed its pass is stopped before
      it writes the order row, by a crash or by that statement failing. */
  predicate StoppedBetween(s: State, e: Event, sid: Sid) {
    exists i :: 0 <= i < |s.callers| && s.callers[i].session == sid && s.callers[i].pc.InsertOrder?
                && (e == Crash || e == Commit(i, false))
  }

  /** A session of the pass path is wedged by a step exactly when the step stops its caller
      between the two commits; once wedged it stays wedged. */
  lemma WedgedStep(s: State, e: Event, carts: map<Sid, Cart>, sid: Sid)
    requires Inv(s) && IsPassSession(carts, sid) && PassOrdersOnly(s, sid)
    ensures Wedged(Step(s, e, carts), sid) <==> Wedged(s, sid) || StoppedBetween(s, e, sid)
  {
    var t := Step(s, e, carts);
    if e.Commit? && Runs(s, e.i) {
      CommitAndSession(s, e.i, e.ok, carts, sid);
      CommitWedges(s, t, e, carts, sid);
    } else {
      OtherAndSession(s, e, carts, sid);
      assert Inserting(s, sid) ==> StampedBy(s.db, sid);
      assert StoppedBetween(s, e, sid) <==> e == Crash && Inserting(s, sid);
    }
  }

  lemma CommitWedges(s: State, t: State, e: Event, carts: map<Sid, Cart>, sid: Sid)
    requires Inv(s) && IsPassSession(carts, sid) && PassOrdersOnly(s, sid)
    requires e.Commit? && Runs(s, e.i) && t == StepCommit(s, e.i, e.ok, carts)
    ensures Wedged(t, sid) <==> Wedged(s, sid) || StoppedBetween(s, e, sid)
  {
    CommitAndSession(s, e.i, e.ok, carts, sid);
    SoleInserter(s, s, e.i, sid);
    SoleInserter(s, t, e.i, sid);
    assert StoppedBetween(s, e, sid) <==> Inserting(s, sid) && !e.ok;
  }

  /** Only the holder of the mutex can be between its commits, before its step and after. */
  lemma SoleInserter(s: State, t: State, i: nat, sid: Sid)
    requires Inv(s) && Runs(s, i) && |t.callers| == |s.callers| && t.callers == s.callers[i := t.callers[i]]
    ensures Inserting(t, sid) <==> t.callers[i].session == sid && t.callers[i].pc.InsertOrder?
    ensures forall j :: 0 <= j < |s.callers| && s.callers[j].pc.InsertOrder? ==> j == i
  {
    forall j | 0 <= j < |t.callers| && j != i ensures !t.callers[j].pc.InsertOrder? {
      assert t.callers[j] == s.callers[j];
    }
  }

  lemma {:induction false} RunKeepsPassOrdersOnly(events: seq<Event>, carts: map<Sid, Cart>, sid: Sid)
    requires IsPassSession(carts, sid)
    ensures PassOrdersOnly(Run(Empty(), events, carts), sid)
  {
    if events != [] {
      RunKeepsPassOrdersOnly(events[..|events| - 1], carts, sid);
      RunKeepsInv(events[..|events| - 1], carts);
      StepKeepsPassOrdersOnly(Run(Empty(), events[..|events| - 1], carts), events[|events| - 1], carts, sid);
    }
  }

  /** No event of the run stops the session's caller between its two commits. */
  ghost predicate NeverStopped(events: seq<Event>, carts: map<Sid, Cart>, sid: Sid) {
    events == []
    || (NeverStopped(events[..|events| - 1], carts, sid)
        && !StoppedBetween(Run(Empty(), events[..|events| - 1], carts), events[|events| - 1], sid))
  }

  /** A paid pass is left without its order row exactly on the runs that stopped its caller
      between the two commits; on all others pass and order row go together. */
  lemma {:induction false} PassAndOrderTogether(events: seq<Event>, carts: map<Sid, Cart>, sid: Sid)
    requires IsPassSession(carts, sid)
    ensures Wedged(Run(Empty(), events, carts), sid) <==> !NeverStopped(events, carts, sid)
    ensures NeverStopped(events, carts, sid) ==>
      var t := Run(Empty(), events, carts);
      StampedBy(t.db, sid) <==> Ordered(t.db, sid) || Inserting(t, sid)
  {
    RunKeepsInv(events, carts);
    RunKeepsPassOrdersOnly(events, carts, sid);
    var t := Run(Empty(), events, carts);
    if Ordered(t.db, sid) { OrderedIsStamped(t, sid); }
    if events != [] {
      var front := events[..|events| - 1];
      PassAndOrderTogether(front, carts, sid);
      RunKeepsInv(front, carts);
      RunKeepsPassOrdersOnly(front, carts, sid);
      WedgedStep(Run(Empty(), front, carts), events[|events| - 1], carts, sid);
    }
  }

  /** After that no caller of the session ever gets a fresh result and no retry ever writes the
      order row: the unique index turns every later attempt away. */
  lemma {:induction false} WedgedForGood(before: seq<Event>, after: seq<Event>, carts: map<Sid, Cart>, sid: Sid)
    requires IsPassSession(carts, sid) && Wedged(Run(Empty(), before, carts), sid)
    ensures var t := Run(Empty(), before + after, carts);
      Wedged(t, sid)
      && forall i :: 0 <= i < |t.callers| && t.callers[i].session == sid ==> t.callers[i].pc != Finished(Fresh)
    decreases |after|
  {
    RunKeepsInv(before + after, carts);
    if after == [] {
      assert before + after == before;
    } else {
      var front, e := after[..|after| - 1], after[|after| - 1];
      assert (before + after)[..|before + after| - 1] == before + front;
      WedgedForGood(before, front, carts, sid);
      RunKeepsInv(before + front, carts);
      RunKeepsPassOrdersOnly(before + front, carts, sid);
      WedgedStep(Run(Empty(), before + front, carts), e, carts, sid);
    }
  }

  // ----- a run that wedges ------------------------------------------------------------------------

  /** A call takes the mutex, finds no order, sees the session paid, commits the pass, and the
      process dies before the order row. */
  function WedgingRun(sid: Sid): seq<Event> {
    [Call(sid), Lock(0), Check(0, true), FetchSession(0, Paid), Commit(0, true), Crash]
  }

  function OneCaller(db: Tables, mutex: Option<nat>, sid: Sid, pc: PC): State {
    State(db, mutex, [Caller(sid, pc)])
  }

  lemma CallerUpdated(sid: Sid, pc: PC, next: PC)
    ensures [Caller(sid, pc)][0 := Caller(sid, next)] == [Caller(sid, next)]
  {
  }

  lemma RunSnoc(s: State, events: seq<Event>, e: Event, carts: map<Sid, Cart>)
    ensures Run(s, events + [e], carts) == Step(Run(s, events, carts), e, carts)
  {
    assert (events + [e])[..|events|] == events;
  }

  lemma WedgingOpens(sid: Sid, carts: map<Sid, Cart>)
    ensures Run(Empty(), [Call(sid), Lock(0), Check(0, true)], carts) == OneCaller(Empty().db, Some(0), sid, Fetch)
  {
    var a, b, c := Call(sid), Lock(0), Check(0, true);
    RunSnoc(Empty(), [], a, carts);
    RunSnoc(Empty(), [a], b, carts);
    RunSnoc(Empty(), [a, b], c, carts);
    assert [] + [a] == [a] && [a] + [b] == [a, b] && [a, b] + [c] == [a, b, c];
    assert Run(Empty(), [a], carts) == OneCaller(Empty().db, None, sid, Waiting);
    CallerUpdated(sid, Waiting, CheckOrder);
    assert Run(Empty(), [a, b], carts) == OneCaller(Empty().db, Some(0), sid, CheckOrder);
    CallerUpdated(sid, CheckOrder, Fetch);
  }

  /** Any session that pays for a pass can end wedged: its pass is there and its order row never will be. */
  lemma SessionsCanWedge(sid: Sid, carts: map<Sid, Cart>)
    requires sid in carts && NextStep(carts[sid]) == PassTx
    ensures Wedged(Run(Empty(), WedgingRun(sid), carts), sid)
  {
    var open := [Call(sid), Lock(0), Check(0, true)];
    var d, e := FetchSession(0, Paid), Commit(0, true);
    WedgingOpens(sid, carts);
    RunSnoc(Empty(), open, d, carts);
    RunSnoc(Empty(), open + [d], e, carts);
    RunSnoc(Empty(), open + [d] + [e], Crash, carts);
    assert WedgingRun(sid) == open + [d] + [e] + [Crash];
    CallerUpdated(sid, Fetch, PassTx);
    CallerUpdated(sid, PassTx, InsertOrder(0));
    var db := Minted(Empty().db, Some(sid), None, CartExtras(carts[sid].lines));
    assert Run(Empty(), open + [d] + [e], carts) == OneCaller(db, Some(0), sid, InsertOrder(0));
    var t := Run(Empty(), WedgingRun(sid), carts);
    assert t.db.passes[0].session == Some(sid);
    assert t.callers[0].pc == Finished(Killed);
  }
}
